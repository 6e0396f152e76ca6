# Portfolio data sync and adaptive 3D background — a Dafny model

This project models the two pieces of decision and transform logic in a
personal portfolio site:

* **The data-sync transform** (`processData` in `scripts/sync-portfolio.js`).
  It takes six named exports of the portfolio data module, in a fixed order:
  `skills`, `skillCategories`, `experiences`, `projects`, `aboutSkills`,
  `services`. It drops the falsy ones and turns each kept value into plain
  JSON data with `JSON.parse(JSON.stringify(value, replacer))`. The replacer
  turns icon components into names:
  * a function becomes its `displayName`, else its `name`, else `"Icon"`;
  * an object with a truthy `displayName` becomes that `displayName`.
* **The adaptive background** (`src/components/react/Background3d.jsx`):
  * the device classifier (`getDeviceType`);
  * the two quality profiles (`getQualitySettings`);
  * the per-component frame gate in `ParticleField` and `CyberShape`, which
    lets a rotation update through only on every `frameSkip`-th tick;
  * the fill of a particle field's positions buffer;
  * `Background3D`'s choice between the static fallback and the animated
    scene.

Files:

| file | module | models |
|---|---|---|
| `wrappers.dfy` | `Wrappers` | `Option` (JavaScript `undefined`) and `Result` (a thrown error) |
| `sync_portfolio.dfy` | `SyncPortfolio` | `processData` and its replacer |
| `device_quality.dfy` | `DeviceQuality` | `getDeviceType`, `getQualitySettings` |
| `animation.dfy` | `Animation` | the frame gate, `ParticleField`, `CyberShape`, the positions fill |
| `scene.dfy` | `SceneComposer` | `Background3D`'s render decision and its React state |

How the JavaScript is represented:

* **Values.** `SyncPortfolio.Value` is a JavaScript value tree: null,
  booleans, numbers, strings, arrays, objects (members kept in insertion
  order), and a `Func` leaf. A `Func` has an optional `displayName` and a
  `name` string. `Truthy` is JavaScript truthiness.
* **Serialisation.** `Serialize(v)` is the tree that
  `JSON.parse(JSON.stringify(v, replacer))` rebuilds. `None` means
  `JSON.stringify` produced `undefined`. That happens when the replacer
  returns a function, for example when a `displayName` is itself a function.
  * The replacer runs top-down. It sees a node before its children, and only
    the children of what it returned are visited afterwards.
  * An array slot that comes out `undefined` becomes `null`; an object member
    that does is dropped.
  * At the top level, `undefined` makes `JSON.parse` throw. `processData`
    then fails, modelled as `Failure(UnserialisableExport(key))`.
* **Environment.** The browser globals become an explicit `Environment`.
  `hardwareConcurrency`, `deviceMemory` and `devicePixelRatio` are optional,
  because `undefined <= 4` is false and an absent or zero `deviceMemory` is
  falsy.
* **Frame gate.** `frameCount % frameSkip !== 0` rejects a tick. With
  `frameSkip` 0 the remainder is NaN, so every tick is rejected. Each
  component class carries a ghost count of rotation updates, kept equal to
  `frameCount / frameSkip`.

One consequence of the code shows up in the proofs. The constrained profile
(300/30 particles, `frameSkip` 2) always has `isMobile` set. `Background3D`
renders the static fallback whenever `isMobile` is set. So the constrained
counts and frame skip never reach a rendered component: every mounted
component runs with `frameSkip` 1 (`RenderedLayersNeverSkip`). Non-mobile
low-end machines get the fallback too.

## Model

| member | source | states |
|---|---|---|
| `SyncPortfolio.Truthy` | scripts/sync-portfolio.js:19-27 | the truthiness tests of lines 19, 24 and 27: a value is falsy iff it is null, `false`, 0 or `""`; arrays, objects and functions are truthy even when empty |
| `SyncPortfolio.Lookup` | scripts/sync-portfolio.js:27 | `v.displayName` on an object: the value found is that of the first member with the key, and nothing is found iff no member has that key |
| `SyncPortfolio.TruthyDisplayName` | scripts/sync-portfolio.js:27 | the `displayName` test of line 27: it fires iff the object has a `displayName` member and that member is truthy, and then yields its value |
| `SyncPortfolio.Replace` | scripts/sync-portfolio.js:21-31 | the replacer preserves truthiness and never grows a value; anything other than a function or a named object is returned unchanged |
| `SyncPortfolio.Serialize` | scripts/sync-portfolio.js:21 | a serialised value is truthy iff the original was |
| `SyncPortfolio.Emit` | scripts/sync-portfolio.js:21 | after the replacer, only a function serialises to `undefined`; truthiness is kept |
| `SyncPortfolio.SerializeItems` | scripts/sync-portfolio.js:21 | serialising an array's slots keeps their number |
| `SyncPortfolio.SerializeFields` | scripts/sync-portfolio.js:21 | serialising an object's members never adds one |
| `SyncPortfolio.ScalarsUnchanged` | scripts/sync-portfolio.js:30 | null, booleans, numbers and strings pass through unchanged |
| `SyncPortfolio.FunctionLeaf` | scripts/sync-portfolio.js:23-25 | a function with a truthy `displayName` of any kind serialises as that `displayName` does (a non-empty string comes out as itself); otherwise it becomes its `name` if non-empty, else `"Icon"` |
| `SyncPortfolio.NamedObjectReplaced` | scripts/sync-portfolio.js:27-29 | an object with a truthy `displayName` is replaced by it wholesale; two objects with the same `displayName` serialise alike, whatever their other members |
| `SyncPortfolio.SerializeItemsAt` | scripts/sync-portfolio.js:21 | slot i of a serialised array is the serialisation of slot i, or `null` when that is `undefined` |
| `SyncPortfolio.ArrayShape` | scripts/sync-portfolio.js:21-30 | an array stays an array of the same length and order, each slot serialised on its own |
| `SyncPortfolio.SerializeFieldsAllKept` | scripts/sync-portfolio.js:21 | when every member serialises, every key is kept in order with its serialised value |
| `SyncPortfolio.ObjectShape` | scripts/sync-portfolio.js:21-30 | an object without a truthy `displayName` whose every member serialises (none comes out `undefined`) keeps its keys and their order, each value serialised recursively |
| `SyncPortfolio.SerializeFunctionFree` | scripts/sync-portfolio.js:21-31 | a serialised value holds no function anywhere in the tree |
| `SyncPortfolio.EmitFunctionFree` | scripts/sync-portfolio.js:21-31 | the same for a value the replacer has already seen |
| `SyncPortfolio.FieldsFunctionFree` | scripts/sync-portfolio.js:21-31 | no serialised object member holds a function |
| `SyncPortfolio.CanonicalFixed` | scripts/sync-portfolio.js:21-31 | a value with no function and no truthy `displayName` serialises to itself |
| `SyncPortfolio.LookupSerialized` | scripts/sync-portfolio.js:21-29 | looking up a key after serialisation gives the serialisation of what the lookup found before |
| `SyncPortfolio.StringDisplayNamesCanonical` | scripts/sync-portfolio.js:21-31 | when every `displayName` is a string, serialisation succeeds and leaves neither functions nor truthy `displayName`s |
| `SyncPortfolio.SerializeIdempotent` | scripts/sync-portfolio.js:21-31 | when every `displayName` is a string, serialising the output again returns it unchanged |
| `SyncPortfolio.NestedDisplayNameNotIdempotent` | scripts/sync-portfolio.js:27-29 | without that condition idempotence fails: an object whose `displayName` is a named object loses one level per pass |
| `SyncPortfolio.Export` | scripts/sync-portfolio.js:19-33 | one `forEach` step adds nothing iff `rawData[key]` is falsy; what it adds holds no function; when it throws, the error names that key |
| `SyncPortfolio.Collect` | scripts/sync-portfolio.js:18-35 | after the `forEach` has visited some keys, the result has no more members than keys visited, each under a visited key and free of functions; an error names a visited key whose value is truthy |
| `SyncPortfolio.Process` | scripts/sync-portfolio.js:12-38 | `processData` returns at most six members, each under a listed key and free of functions, or throws for a listed key whose value is truthy |
| `SyncPortfolio.ProcessData` | scripts/sync-portfolio.js:12-38 | the loop builds the result key by key and returns `Process(raw)`, or fails on the first export that cannot be serialised |
| `SyncPortfolio.CollectFailurePersists` | scripts/sync-portfolio.js:18-35 | a thrown error ends `processData`: once a prefix of the keys fails, the whole run fails with that error |
| `SyncPortfolio.KeptMembership` | scripts/sync-portfolio.js:16-19 | a key is kept iff it is listed and `rawData[key]` is truthy |
| `SyncPortfolio.KeptInListOrder` | scripts/sync-portfolio.js:16-18 | kept keys appear in the order of the list they come from |
| `SyncPortfolio.CollectKeys` | scripts/sync-portfolio.js:18-35 | the result holds exactly the kept keys, each with the serialisation of `rawData[key]` |
| `SyncPortfolio.CollectDistinct` | scripts/sync-portfolio.js:16-35 | over a key list without repeats, such as the six listed exports, no key appears twice in the result |
| `SyncPortfolio.CollectFailsIff` | scripts/sync-portfolio.js:19-21 | the run fails iff some kept export serialises to `undefined` |
| `SyncPortfolio.ProcessOutputShape` | scripts/sync-portfolio.js:12-38 | output keys come only from the six listed exports, in list order; a listed key appears iff its value is truthy; each value is its export serialised, with no functions |
| `SyncPortfolio.ProcessSucceeds` | scripts/sync-portfolio.js:18-35 | with every `displayName` a string, `processData` never throws |
| `SyncPortfolio.CollectExports` | scripts/sync-portfolio.js:18-35 | read back as a map, the result has only listed, truthy keys, each bound to its serialised export |
| `SyncPortfolio.CollectAgrees` | scripts/sync-portfolio.js:18-35 | two inputs that agree on every listed export give the same result |
| `SyncPortfolio.ProcessIdempotent` | scripts/sync-portfolio.js:12-38 | with every `displayName` a string, `processData` applied to its own output returns that output unchanged |
| `DeviceQuality.Lower` | src/components/react/Background3d.jsx:8 | lower-casing keeps the length and lower-cases each letter in place |
| `DeviceQuality.LowerConcat` | src/components/react/Background3d.jsx:8 | lower-casing distributes over concatenation |
| `DeviceQuality.ContainsIff` | src/components/react/Background3d.jsx:9 | the keyword test holds iff the keyword occurs as a slice of the user agent |
| `DeviceQuality.ContainsMiddle` | src/components/react/Background3d.jsx:9 | a string contains any of its middle slices |
| `DeviceQuality.MobileAgentIff` | src/components/react/Background3d.jsx:9 | the regular-expression test holds iff one of the five keywords occurs at some index of the lower-cased user agent |
| `DeviceQuality.MobileKeywordAnywhere` | src/components/react/Background3d.jsx:8-9 | a keyword anywhere in the user agent, in any letter case, makes it a mobile agent |
| `DeviceQuality.CappedPixelRatio` | src/components/react/Background3d.jsx:16 | `Math.min(ratio \|\| 1, 2)`: 1 when the reported ratio is absent or 0, the reported ratio when that is at most 2, exactly 2 when it is above 2, never above 2 |
| `DeviceQuality.GetDeviceType` | src/components/react/Background3d.jsx:7-18 | mobile iff a keyword matches, low-end iff the core or memory rule fires, pixel ratio the capped reported ratio (so at most 2) |
| `DeviceQuality.IsLowEnd` | src/components/react/Background3d.jsx:10-11 | low-end iff at most 4 cores are reported, or a memory is reported that is neither 0 nor above 4 |
| `DeviceQuality.Constrained` | src/components/react/Background3d.jsx:25-36 | the constrained profile is well formed and mobile, with frame skip 2 and pixel ratio 1 |
| `DeviceQuality.Full` | src/components/react/Background3d.jsx:39-50 | the full profile is not mobile, has frame skip 1 and the given pixel ratio, more particles in both layers than the constrained one, and is well formed when the ratio is at most 2 |
| `DeviceQuality.GetQualitySettings` | src/components/react/Background3d.jsx:21-51 | the constrained profile iff mobile or low-end, else the full profile with the capped pixel ratio; every profile has frame skip at least 1 and pixel ratio at most 2 |
| `DeviceQuality.MobileAgentConstrained` | src/components/react/Background3d.jsx:8-24 | a mobile keyword in any letter case anywhere in the user agent yields the constrained profile |
| `DeviceQuality.LowEndClassification` | src/components/react/Background3d.jsx:10-11 | at most 4 cores means low-end; memory counts only when present, non-zero and at most 4; absent signals never force low-end |
| `DeviceQuality.CapableDesktopFull` | src/components/react/Background3d.jsx:21-50 | a desktop agent with more than 4 cores and no low memory report gets the full profile |
| `Animation.Accepts` | src/components/react/Background3d.jsx:76 | frame skip 0 rejects every tick, frame skip 1 accepts every tick, and below the frame skip only count 0 is accepted |
| `Animation.AcceptedAmong` | src/components/react/Background3d.jsx:71-80 | at most n of n ticks are accepted, none with frame skip 0 or with fewer ticks than the frame skip |
| `Animation.AcceptedAmongIsFloor` | src/components/react/Background3d.jsx:75-76 | with frame skip N, exactly floor(n/N) of n ticks are accepted |
| `Animation.EveryTickAcceptedWithSkipOne` | src/components/react/Background3d.jsx:76 | frame skip 1 accepts every tick |
| `Animation.AcceptedEvenlySpaced` | src/components/react/Background3d.jsx:76 | accepted ticks are exactly frame skip apart, with none in between |
| `Animation.FillPositions` | src/components/react/Background3d.jsx:57-69 | the buffer is newly allocated, has 3·count entries, and point i sits at indices 3i, 3i+1 and 3i+2 |
| `Animation.ParticleField.constructor` | src/components/react/Background3d.jsx:53-69 | a new field has counter 0, zero rotation, no mounted object and its own newly allocated positions buffer laid out as above |
| `Animation.ParticleField.Mount` | src/components/react/Background3d.jsx:84 | attaching the object changes neither counter nor rotation |
| `Animation.ParticleField.Tick` | src/components/react/Background3d.jsx:71-80 | no mounted object: nothing changes; otherwise the counter grows by one and the rotation moves by −delta/15, −delta/20 iff the new count is accepted; updates so far equal counter / frame skip |
| `Animation.CyberShape.constructor` | src/components/react/Background3d.jsx:99-101 | a new shape has counter 0, zero rotation and no mounted object |
| `Animation.CyberShape.Mount` | src/components/react/Background3d.jsx:115 | attaching the mesh changes neither counter nor rotation |
| `Animation.CyberShape.Tick` | src/components/react/Background3d.jsx:103-112 | as for the particle field, the accepted path setting the angles to 0.2 and 0.3 times the clock readings |
| `SceneComposer.Render` | src/components/react/Background3d.jsx:162-228 | static fallback iff no profile yet or `isMobile`; otherwise both particle fields with the profile's counts and frame skip, the shape iff `enableShape`, fog and lighting per the profile |
| `SceneComposer.ConstrainedDeviceStaysStatic` | src/components/react/Background3d.jsx:163-170 | a mobile or low-end device sees the static fallback whatever the canvas state |
| `SceneComposer.CapableDeviceScene` | src/components/react/Background3d.jsx:172-217 | a capable device sees 1000 and 80 particles, the floating shape, fog and dynamic lights, frame skip 1, pixel ratio at most 2 |
| `SceneComposer.RenderedLayersNeverSkip` | src/components/react/Background3d.jsx:163-217 | every mounted animated component (both particle fields and the accent shape) runs with frame skip 1, and the particle fields have full counts |
| `SceneComposer.Background3D.constructor` | src/components/react/Background3d.jsx:142-144 | the composer starts with no profile and shows the static fallback |
| `SceneComposer.Background3D.InitQuality` | src/components/react/Background3d.jsx:148-150 | the profile is set from the environment; the view is static iff the device is mobile or low-end |
| `SceneComposer.Background3D.ShowCanvas` | src/components/react/Background3d.jsx:152 | the canvas becomes visible on a capable device and stays static on a constrained one |

## Left out

- File writing, console logging and `process.exit` (scripts/sync-portfolio.js:40-55): I/O and process control.
- The JSON text itself (2-space indentation): the model works on value trees.
- `toJSON`, `undefined`-valued members in the input, symbols, NaN and Infinity: these are `JSON.stringify` edge cases.
- Cycles: a value tree cannot have one. `JSON.stringify` would throw on a cyclic input.
- Integer-like object keys, which JavaScript moves to the front of an object: the model keeps insertion order.
- Inherited properties: a `displayName` is found only among an object's own members.
- The input tree can hold duplicate keys, which a JavaScript object cannot. Lookup takes the first one.
- Numbers are exact reals. Floating-point rounding is not modelled.
- The data module `src/lib/data.js` is not part of this model: `rawData` is an arbitrary map from export names to values.
- Deep copy and `rawData` left unmodified: immutable values give this by construction, so there is no separate statement.
- `toLowerCase` beyond ASCII: Unicode case mapping is not modelled. The keywords are ASCII.
- The regular expression is modelled as a substring test over its five alternatives.
- `Math.random`, `Math.cbrt`, the trigonometry and `Float32Array` rounding (src/components/react/Background3d.jsx:60-66): these are floating point and randomness. The i-th point is an uninterpreted `sample(i, radius)`.
- FillPositions: does not state that every point lies within the radius, because the sampler is abstract.
- Rotation updates use exact reals, not floats. The clock and frame delta are parameters.
- ParticleField's default props (count 1500, size, colour, radius): the composer always passes its own values.
- `requestIdleCallback` with its 500 ms timeout, the 50 ms `setTimeout` fallback, the 200 ms delay and the 1000 ms fade (src/components/react/Background3d.jsx:146-160, 174): host scheduling. `InitQuality` and `ShowCanvas` are the state changes those callbacks make.
- Timer cleanup on unmount: the effect at lines 146-160 returns no cleanup function, so pending timers are not cancelled. The model follows the code and has no cancellation.
- Colours, materials, light intensities, camera and GL options, the `Float` wrapper's parameters, group transforms and overlays (src/components/react/Background3d.jsx:82-139, 172-234): markup and the rendering library. The accent shape keeps only whether it floats (lines 130-139) and its frame skip.
- Frame counters are unbounded naturals. JavaScript numbers are exact only up to 2^53.
