/**
 * The scene composer (`Background3D` in Background3d.jsx): until a quality
 * profile is known, and for ever on a constrained device, it shows a static
 * background; otherwise it mounts the animated scene, transparent until the
 * canvas is marked ready.
 *
 * The rendered markup is reduced to the decisions it encodes: which layers
 * exist and with which parameters.
 */
module SceneComposer {
  import opened Wrappers
  import opened DeviceQuality

  /** A `ParticleField` as the composer configures it. */
  datatype ParticleLayer = ParticleLayer(count: nat, size: real, radius: real, frameSkip: nat)

  /** The accent shape; `floating` wraps it in the float motion. */
  datatype AccentShape = AccentShape(floating: bool, frameSkip: nat)

  datatype Lighting = DynamicLights | AmbientOnly

  datatype View =
    | StaticBackground
    | AnimatedScene(
        visible: bool,
        pixelRatio: real,
        fog: bool,
        stars: ParticleLayer,
        foreground: ParticleLayer,
        shape: Option<AccentShape>,
        lighting: Lighting)

  /** What `Background3D` renders for its current state. */
  function Render(quality: Option<QualitySettings>, isCanvasReady: bool): (v: View)
    ensures v.StaticBackground? <==> quality.None? || quality.value.isMobile
    ensures v.AnimatedScene? ==>
              && v.visible == isCanvasReady
              && v.pixelRatio == quality.value.pixelRatio
              && v.fog == quality.value.enableFog
              && v.stars.count == quality.value.particleCount
              && v.foreground.count == quality.value.foregroundCount
              && v.stars.frameSkip == v.foreground.frameSkip == quality.value.frameSkip
              && (v.shape.Some? <==> quality.value.enableShape)
              && (v.shape.Some? ==> v.shape.value == AccentShape(quality.value.enableFloat, quality.value.frameSkip))
              && (v.lighting == DynamicLights <==> quality.value.enableLighting)
  {
    if quality.None? || quality.value.isMobile then StaticBackground
    else
      var q := quality.value;
      AnimatedScene(
        visible := isCanvasReady,
        pixelRatio := q.pixelRatio,
        fog := q.enableFog,
        stars := ParticleLayer(q.particleCount, q.particleSize, 2.5, q.frameSkip),
        foreground := ParticleLayer(q.foregroundCount, q.particleSize * 2.5, 1.5, q.frameSkip),
        shape := if q.enableShape then Some(AccentShape(q.enableFloat, q.frameSkip)) else None,
        lighting := if q.enableLighting then DynamicLights else AmbientOnly)
  }

  /**
   * A constrained device, a mobile agent or a low-end desktop alike, sees the
   * static background whatever the canvas state.
   */
  lemma ConstrainedDeviceStaysStatic(env: Environment, isCanvasReady: bool)
    requires IsMobileAgent(env.userAgent) || IsLowEnd(env)
    ensures Render(Some(GetQualitySettings(env)), isCanvasReady) == StaticBackground
  {
  }

  /**
   * A capable device sees both particle fields at full density, the floating
   * accent shape, fog and dynamic lights, with every frame accepted and the
   * pixel ratio at most 2.
   */
  lemma CapableDeviceScene(env: Environment, isCanvasReady: bool)
    requires !IsMobileAgent(env.userAgent) && !IsLowEnd(env)
    ensures var v := Render(Some(GetQualitySettings(env)), isCanvasReady);
            && v.AnimatedScene?
            && v.visible == isCanvasReady
            && v.stars.count == 1000 && v.foreground.count == 80
            && v.stars.frameSkip == 1 && v.foreground.frameSkip == 1
            && v.shape == Some(AccentShape(true, 1))
            && v.fog && v.lighting == DynamicLights
            && v.pixelRatio <= 2.0
  {
  }

  /**
   * Whatever the device, every animated component that is ever mounted gets
   * frame skip 1: the constrained profile's reduced settings never reach a
   * rendered component.
   */
  lemma RenderedLayersNeverSkip(env: Environment, isCanvasReady: bool)
    ensures var v := Render(Some(GetQualitySettings(env)), isCanvasReady);
            v.AnimatedScene? ==>
              && v.stars.frameSkip == 1 && v.foreground.frameSkip == 1
              && (v.shape.Some? ==> v.shape.value.frameSkip == 1)
              && v.stars.count == 1000 && v.foreground.count == 80
  {
  }

  /** The composer's React state. */
  class Background3D {
    var quality: Option<QualitySettings>
    var isLoaded: bool
    var isCanvasReady: bool

    constructor ()
      ensures quality.None? && !isLoaded && !isCanvasReady
      ensures Render(quality, isCanvasReady) == StaticBackground
    {
      quality := None;
      isLoaded := false;
      isCanvasReady := false;
    }

    /** `initQuality`, run once the browser is idle or its timeout expires. */
    method InitQuality(env: Environment)
      modifies this
      ensures quality == Some(GetQualitySettings(env)) && isLoaded
      ensures isCanvasReady == old(isCanvasReady)
      ensures Render(quality, isCanvasReady).StaticBackground? <==> IsMobileAgent(env.userAgent) || IsLowEnd(env)
    {
      quality := Some(GetQualitySettings(env));
      isLoaded := true;
    }

    /** The 200 ms timer that `initQuality` starts fires. */
    method ShowCanvas()
      requires isLoaded
      modifies this
      ensures isCanvasReady && quality == old(quality) && isLoaded
      ensures old(quality).Some? && old(quality).value.isMobile ==> Render(quality, isCanvasReady) == StaticBackground
      ensures old(quality).Some? && !old(quality).value.isMobile ==> Render(quality, isCanvasReady).visible
    {
      isCanvasReady := true;
    }
  }
}
