# MinMaxGUIHelper, modelled in Dafny

The scene script's `MinMaxGUIHelper` (main.js:7-28) wraps an object and the
names of two of its numeric properties. It is used on the camera's `near` and
`far` with a least gap `minDif` of 0.1 (main.js:66). The GUI panel binds two
sliders to its `min` and `max` accessors (main.js:71-72). Its setters keep
`max >= min + minDif`:

- `set min(v)` stores `v`, then raises `max` to `v + minDif` if it is lower.
- `set max(v)` stores `v`, then assigns `min` its own value. That call runs the
  `min` setter again, so `max` ends up as `max(v, min + minDif)` and `min` does
  not change.

`minmax_gui.dfy` (module `MinMaxGui`) holds the model in two layers:

- Pure layer. `Pair` carries the two property names and `minDif`. `AfterSetMin`
  and `AfterSetMax` give the wrapped object's property map after each setter,
  written step by step the way the setters write it. `Edit`, `Step` and
  `Replay` model a history of slider edits. The lemmas are about these
  functions.
- Imperative layer. A class `Properties` stands for the wrapped object (a
  mutable map from property names to numbers). A class `MinMaxGUIHelper` holds
  a reference to it and the three constant settings. Its getters `Min` and
  `Max` (`get min`, main.js:14-16, and `get max`, main.js:21-23) are one-line
  reads of the wrapped object's properties, written as functions so that they
  change nothing. Their laws are stated where they matter: on `SetMin`
  (`Min()` reads the value just set), on `SetMax` (`Min()` is unchanged, and
  `Max()` is `v` exactly when `v >= Min() + minDif`) and on `LastMinEditWins`.
  Its setters are methods that `modify` the wrapped object. `SetMax` calls `SetMin(Min())`, which is the self-assignment
  `this.min = this.min`. Each setter's postcondition ties the new property map
  to the pure layer.

The case where both names are the same property is modelled as written: the
second write then lands on the same key. The clamp properties are stated for
distinct names, as in the use at main.js:66. Numbers are mathematical reals:
the setters use only `+` and `Math.max`, so nothing depends on rounding.

## Model

| member | source | states |
|---|---|---|
| `MinMaxGui.MathMax` | main.js:19 | `Math.max(a, b)` is at least both arguments and equals one of them |
| `MinMaxGui.AfterSetMin` | main.js:17-20 | after `set min(v)` the min property is `v` and max is at least `v + minDif`. Max is never lowered. It is either the old max or `v + minDif`, and it stays unchanged exactly when the old max already met the gap. No other property changes and no property is added or removed. |
| `MinMaxGui.AfterSetMax` | main.js:24-27 | after `set max(v)` min is unchanged and the invariant holds. Max is at least `v` and at least `min + minDif`, and equals one of them. It is exactly `v` if and only if `v >= min + minDif`. No other property changes. |
| `MinMaxGui.Step` | main.js:17-27 | one edit through either setter keeps the key set and every other property, and leaves the invariant holding whatever the prior state |
| `MinMaxGui.Replay` | main.js:71-72 | a history of slider edits keeps the key set and every other property. After a non-empty history the invariant holds, and an empty history keeps it if it held before. |
| `MinMaxGui.ReplayAppend` | main.js:71-72 | replaying two edit histories in turn equals replaying their concatenation |
| `MinMaxGui.LastMinEditWins` | main.js:18 | after any history whose last edit is `min = v`, the min property reads `v` |
| `MinMaxGui.MinEditsNeverLowerMax` | main.js:19 | a history of `min` edits only never lowers max |
| `MinMaxGui.MaxEditsKeepMin` | main.js:26 | a history of `max` edits only never changes min |
| `MinMaxGui.SelfAssignmentSettles` | main.js:26 | the self-assignment `min = min` leaves the object unchanged if and only if the invariant already holds |
| `MinMaxGui.SetMinIdempotent` | main.js:17-20 | setting min twice to the same value equals setting it once |
| `MinMaxGui.SetMaxIdempotent` | main.js:24-27 | setting max twice to the same value equals setting it once |
| `MinMaxGui.Properties.constructor` | main.js:54 | the wrapped object starts with exactly the given property values |
| `MinMaxGui.MinMaxGUIHelper.constructor` | main.js:8-13 | stores `obj`, `minProp`, `maxProp` and `minDif` unchanged. The wrapped object is not touched. |
| `MinMaxGui.MinMaxGUIHelper.SetMin` | main.js:17-20 | the new property map is `AfterSetMin` of the old one. For distinct names, `Min()` is `v`, `Max() >= Min() + minDif`, and max did not decrease. |
| `MinMaxGui.MinMaxGUIHelper.SetMax` | main.js:24-27 | the new property map is `AfterSetMax` of the old one. For distinct names, min is unchanged and the invariant holds. `Max()` is `v` exactly when `v >= Min() + minDif`. |
| `MinMaxGui.NewCameraHelper` | main.js:66 | the camera starts with fov 45, aspect 2, near 0.1 and far 100 (main.js:50-54). The helper couples `near` and `far` with gap 0.1, and the invariant holds from the start. |

## Left out

- A coupled property missing from the wrapped object. The model requires both to be present (`Valid`, `Pair.Covers`), as they are on the camera. In JavaScript the cases differ. If only `minProp` is missing, `set min(v)` creates it (main.js:18) and then clamps two numbers as usual (main.js:19). If `maxProp` is missing, `set min` reads `undefined` for it and `Math.max` gives `NaN` (main.js:19). If `minProp` is missing, `set max` reads `undefined` for min, and `undefined + minDif` makes the new max `NaN` (main.js:26 via main.js:19).
- Non-numeric properties of the wrapped object: the object is reduced to a map from names to numbers. In `NewCameraHelper` the three.js `PerspectiveCamera` (main.js:54) is reduced further, to just the four values main.js:50-53 passes to it (fov, aspect, near, far).
- Floating-point rounding and `NaN`/`Infinity`: values are mathematical reals.
- The slider ranges and step (0.1 to 50 in steps of 0.1, main.js:71-72): lil-gui enforces them before it calls a setter, and that is library behaviour.
- The `onChange(updateCamera)` callback (main.js:71-72, main.js:75-77): main.js's own `updateCamera` calls three.js's `camera.updateProjectionMatrix()`, a library call whose effect is not visible here.
- `ColorGUIHelper` (main.js:30-41): it only forwards to `THREE.Color.getHexString` and `set`, whose behaviour is library code.
- `resizeRendererToDisplaySize` (main.js:202-209): it compares DOM canvas sizes and calls `renderer.setSize`.
- The rest of `main()` (main.js:43-200), including the animation loop: it builds the scene, loads textures and models, adds lights and sets up the GUI panel. All of that is three.js and browser calls.
- The castle, tower and wall generator and the water shader are not in main.js and are not modelled.
