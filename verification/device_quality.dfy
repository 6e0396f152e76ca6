/**
 * Device classification and the adaptive quality profile
 * (`getDeviceType` and `getQualitySettings` in Background3d.jsx).
 *
 * The browser globals the source reads (`navigator.userAgent`,
 * `navigator.hardwareConcurrency`, `navigator.deviceMemory`,
 * `window.devicePixelRatio`) are passed in as an explicit `Environment`;
 * a numeric signal the browser does not provide is `None`.
 */
module DeviceQuality {
  import opened Wrappers

  /** The environment signals sampled once, when the quality is chosen. */
  datatype Environment = Environment(
    userAgent: string,
    hardwareConcurrency: Option<int>,
    deviceMemory: Option<real>,
    devicePixelRatio: Option<real>)

  /** What `getDeviceType` returns. */
  datatype DeviceType = DeviceType(isMobile: bool, isLowEnd: bool, pixelRatio: real)

  /** The rendering parameters chosen for the session. */
  datatype QualitySettings = QualitySettings(
    isMobile: bool,
    particleCount: nat,
    foregroundCount: nat,
    particleSize: real,
    enableShape: bool,
    enableFloat: bool,
    enableLighting: bool,
    enableFog: bool,
    frameSkip: nat,
    pixelRatio: real)

  // ---------------------------------------------------------------------------
  // User-agent matching: `toLowerCase()` and `/mobile|android|iphone|ipad|tablet/`

  function LowerChar(c: char): char
  {
    if 'A' <= c <= 'Z' then (c as int + 32) as char else c
  }

  /** `toLowerCase()` on the ASCII letters. */
  function Lower(s: string): (r: string)
    ensures |r| == |s|
    ensures forall i :: 0 <= i < |s| ==> r[i] == LowerChar(s[i])
  {
    if s == [] then [] else [LowerChar(s[0])] + Lower(s[1..])
  }

  lemma {:induction false} LowerConcat(a: string, b: string)
    ensures Lower(a + b) == Lower(a) + Lower(b)
  {
    assert forall i :: 0 <= i < |a + b| ==> Lower(a + b)[i] == (Lower(a) + Lower(b))[i];
  }

  /** `t` occurs in `s` at some position: what the regular expression tests. */
  predicate Contains(s: string, t: string)
    decreases |s|
  {
    t <= s || (s != [] && Contains(s[1..], t))
  }

  /** `t` is the slice of `s` that starts at index `i`. */
  predicate OccursAt(s: string, t: string, i: int)
  {
    0 <= i <= |s| - |t| && s[i..i + |t|] == t
  }

  /** `Contains` holds iff `t` occurs in `s` at some index. */
  lemma {:induction false} ContainsIff(s: string, t: string)
    ensures Contains(s, t) <==> exists i :: OccursAt(s, t, i)
    decreases |s|
  {
    if t <= s {
      assert OccursAt(s, t, 0);
    } else if s == [] {
    } else {
      ContainsIff(s[1..], t);
      if Contains(s[1..], t) {
        var i :| OccursAt(s[1..], t, i);
        assert s[i + 1..i + 1 + |t|] == s[1..][i..i + |t|];
        assert OccursAt(s, t, i + 1);
      }
      if exists i :: OccursAt(s, t, i) {
        var i :| OccursAt(s, t, i);
        if i > 0 {
          assert s[1..][i - 1..i - 1 + |t|] == s[i..i + |t|];
          assert OccursAt(s[1..], t, i - 1);
        }
      }
    }
  }

  lemma {:induction false} ContainsMiddle(a: string, m: string, b: string)
    ensures Contains(a + m + b, m)
    decreases |a|
  {
    if a == [] {
      assert a + m + b == m + b;
      assert m <= m + b;
    } else {
      assert (a + m + b)[1..] == a[1..] + m + b;
      ContainsMiddle(a[1..], m, b);
    }
  }

  const MobileKeywords: seq<string> := ["mobile", "android", "iphone", "ipad", "tablet"]

  /** The regular-expression test: the lower-cased user agent contains one of the keywords. */
  predicate IsMobileAgent(userAgent: string)
  {
    exists k :: 0 <= k < |MobileKeywords| && Contains(Lower(userAgent), MobileKeywords[k])
  }

  /**
   * The keyword test, stated by positions: the user agent is a mobile agent
   * iff some keyword occurs in its lower-cased form at some index.
   */
  lemma MobileAgentIff(userAgent: string)
    ensures IsMobileAgent(userAgent) <==>
              exists k, i :: 0 <= k < |MobileKeywords| && OccursAt(Lower(userAgent), MobileKeywords[k], i)
  {
    if IsMobileAgent(userAgent) {
      var k :| 0 <= k < |MobileKeywords| && Contains(Lower(userAgent), MobileKeywords[k]);
      ContainsIff(Lower(userAgent), MobileKeywords[k]);
      var i :| OccursAt(Lower(userAgent), MobileKeywords[k], i);
      assert exists k, i :: 0 <= k < |MobileKeywords| && OccursAt(Lower(userAgent), MobileKeywords[k], i);
    }
    if exists k, i :: 0 <= k < |MobileKeywords| && OccursAt(Lower(userAgent), MobileKeywords[k], i) {
      var k, i :| 0 <= k < |MobileKeywords| && OccursAt(Lower(userAgent), MobileKeywords[k], i);
      ContainsIff(Lower(userAgent), MobileKeywords[k]);
      assert Contains(Lower(userAgent), MobileKeywords[k]);
      assert IsMobileAgent(userAgent);
    }
  }

  /**
   * A keyword anywhere in the user agent, in any mix of upper and lower case,
   * makes it a mobile agent.
   */
  lemma MobileKeywordAnywhere(before: string, word: string, after: string)
    requires Lower(word) in MobileKeywords
    ensures IsMobileAgent(before + word + after)
  {
    LowerConcat(before + word, after);
    LowerConcat(before, word);
    ContainsMiddle(Lower(before), Lower(word), Lower(after));
    var i :| 0 <= i < |MobileKeywords| && MobileKeywords[i] == Lower(word);
  }

  // ---------------------------------------------------------------------------
  // JavaScript comparisons on signals that may be `undefined`

  /** `x <= bound`; `undefined <= bound` is false. */
  predicate AtMost(x: Option<real>, bound: real)
  {
    x.Some? && x.value <= bound
  }

  /** `x` is truthy: present and not 0. */
  predicate TruthyNumber(x: Option<real>)
  {
    x.Some? && x.value != 0.0
  }

  function AsReal(x: Option<int>): Option<real>
  {
    if x.Some? then Some(x.value as real) else None
  }

  /**
   * The low-end test `hardwareConcurrency <= 4 || (deviceMemory && deviceMemory <= 4)`:
   * at most four reported cores, or a reported memory that is neither 0 nor
   * above 4. A signal the browser does not report never counts.
   */
  predicate IsLowEnd(env: Environment): (r: bool)
    ensures r <==>
              || (env.hardwareConcurrency.Some? && env.hardwareConcurrency.value <= 4)
              || (env.deviceMemory.Some? && env.deviceMemory.value != 0.0 && env.deviceMemory.value <= 4.0)
  {
    AtMost(AsReal(env.hardwareConcurrency), 4.0)
      || (TruthyNumber(env.deviceMemory) && AtMost(env.deviceMemory, 4.0))
  }

  /** The pixel-ratio cap `Math.min(window.devicePixelRatio || 1, 2)`. */
  function CappedPixelRatio(ratio: Option<real>): (r: real)
    ensures r <= 2.0
    ensures !TruthyNumber(ratio) ==> r == 1.0
    ensures TruthyNumber(ratio) && ratio.value <= 2.0 ==> r == ratio.value
    ensures TruthyNumber(ratio) && ratio.value > 2.0 ==> r == 2.0
    ensures TruthyNumber(ratio) && ratio.value > 0.0 ==> 0.0 < r
  {
    var x := if TruthyNumber(ratio) then ratio.value else 1.0;
    if x < 2.0 then x else 2.0
  }

  function GetDeviceType(env: Environment): (d: DeviceType)
    ensures d.pixelRatio == CappedPixelRatio(env.devicePixelRatio) <= 2.0
    ensures !TruthyNumber(env.devicePixelRatio) ==> d.pixelRatio == 1.0
    ensures d.isMobile <==> IsMobileAgent(env.userAgent)
    ensures d.isLowEnd <==> IsLowEnd(env)
  {
    DeviceType(IsMobileAgent(env.userAgent), IsLowEnd(env), CappedPixelRatio(env.devicePixelRatio))
  }

  // ---------------------------------------------------------------------------
  // The two profiles

  /** The constrained profile literal: the profile for phones, tablets and low-end machines. */
  function Constrained(): (q: QualitySettings)
    ensures WellFormed(q) && q.isMobile
    ensures q.frameSkip == 2 && q.pixelRatio == 1.0
  {
    QualitySettings(
      isMobile := true,
      particleCount := 300,
      foregroundCount := 30,
      particleSize := 0.004,
      enableShape := false,
      enableFloat := false,
      enableLighting := false,
      enableFog := false,
      frameSkip := 2,
      pixelRatio := 1.0)
  }

  /** The full profile literal: the profile for capable desktops. */
  function Full(pixelRatio: real): (q: QualitySettings)
    ensures !q.isMobile && q.frameSkip == 1 && q.pixelRatio == pixelRatio
    ensures pixelRatio <= 2.0 ==> WellFormed(q)
    ensures q.particleCount > Constrained().particleCount && q.foregroundCount > Constrained().foregroundCount
  {
    QualitySettings(
      isMobile := false,
      particleCount := 1000,
      foregroundCount := 80,
      particleSize := 0.003,
      enableShape := true,
      enableFloat := true,
      enableLighting := true,
      enableFog := true,
      frameSkip := 1,
      pixelRatio := pixelRatio)
  }

  /** What every profile guarantees whatever the device reports. */
  predicate WellFormed(q: QualitySettings)
  {
    && q.particleCount > 0
    && q.foregroundCount > 0
    && q.particleSize > 0.0
    && q.frameSkip >= 1
    && q.pixelRatio <= 2.0
    && (q.isMobile ==> !q.enableShape && !q.enableFloat && !q.enableLighting && !q.enableFog)
  }

  function GetQualitySettings(env: Environment): (q: QualitySettings)
    ensures WellFormed(q)
    ensures q.isMobile <==> IsMobileAgent(env.userAgent) || IsLowEnd(env)
    ensures q.isMobile ==> q == Constrained()
    ensures !q.isMobile ==> q == Full(CappedPixelRatio(env.devicePixelRatio))
  {
    var device := GetDeviceType(env);
    if device.isMobile || device.isLowEnd then Constrained() else Full(device.pixelRatio)
  }

  // ---------------------------------------------------------------------------
  // Properties of the classification

  /** A mobile keyword anywhere in the user agent yields the constrained profile. */
  lemma MobileAgentConstrained(env: Environment, before: string, word: string, after: string)
    requires env.userAgent == before + word + after
    requires Lower(word) in MobileKeywords
    ensures GetQualitySettings(env) == Constrained()
  {
    MobileKeywordAnywhere(before, word, after);
  }

  /**
   * At most four logical cores makes a device low-end; reported memory makes
   * it low-end only when present, non-zero and at most 4; absent signals
   * never do by themselves.
   */
  lemma LowEndClassification(env: Environment)
    ensures env.hardwareConcurrency.Some? && env.hardwareConcurrency.value <= 4 ==> IsLowEnd(env)
    ensures env.deviceMemory.Some? && 0.0 < env.deviceMemory.value <= 4.0 ==> IsLowEnd(env)
    ensures env.deviceMemory == Some(0.0) || env.deviceMemory.None? ==>
              (IsLowEnd(env) <==> env.hardwareConcurrency.Some? && env.hardwareConcurrency.value <= 4)
    ensures env.hardwareConcurrency.None? ==>
              (IsLowEnd(env) <==> env.deviceMemory.Some? && env.deviceMemory.value != 0.0 && env.deviceMemory.value <= 4.0)
    ensures env.hardwareConcurrency.None? && env.deviceMemory.None? ==> !IsLowEnd(env)
  {
  }

  /**
   * A desktop user agent with more than four cores and either no memory report
   * or more than 4 GB gets the full profile, pixel ratio capped at 2.
   */
  lemma CapableDesktopFull(env: Environment)
    requires !IsMobileAgent(env.userAgent)
    requires env.hardwareConcurrency.Some? && env.hardwareConcurrency.value > 4
    requires env.deviceMemory.None? || env.deviceMemory.value > 4.0 || env.deviceMemory.value == 0.0
    ensures GetQualitySettings(env) == Full(CappedPixelRatio(env.devicePixelRatio))
    ensures GetQualitySettings(env).pixelRatio <= 2.0
  {
  }
}
