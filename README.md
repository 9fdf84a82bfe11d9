# metalsmith-concat in Dafny

metalsmith-concat is a Metalsmith plugin. A Metalsmith build hands each plugin a
mutable object that maps each file path to a file record; this one
concatenates the `contents` of some of those records into a new record at
`output`.

- The factory `plugin(options)` normalises the options object in place.
  `files` stays when it is a string or an array and otherwise becomes `"**/*"`.
  `keepConcatenated` stays when it is a boolean and otherwise becomes `false`.
  A missing `output` throws.
- The step the factory returns chooses its inputs in one of two ways:
  - An array `files` is a list of paths, read in list order by `concatArr`.
  - A string `files` is a glob pattern. `concatObj` tries it on the keys of the
    map in enumeration order.
- Unless `keepConcatenated` is set, every input is deleted as soon as it has
  been read. The concatenation is stored as a fresh record
  `{ contents: ... }` at `output`.
- `addMetadata` then copies the properties of `metadata` onto that record.

The project has four modules:

- `JsValues` (js_values.dfy) holds the fragment of JavaScript values the plugin
  touches: truthiness, `typeof`, string conversion and `Object.keys`.
- `FileMaps` (file_maps.dfy) models the file map. It is a value `State` (entries
  plus key enumeration order) together with a class `FileMap` whose methods
  delete a key, store a record and set a field in place.
- `Concat` (concat.dfy) holds `concatArr`, `concatObj` and `addMetadata`. Each
  is a loop over the live `FileMap`, proved equal to a specification function
  on `State`, and the lemmas about those functions say what the source
  promises.
- `ConcatPlugin` (concat_plugin.dfy) holds the factory and the step. Its class
  `Options` is the caller's options object that the factory updates.

The glob library (`minimatch`) is a parameter `matches` of type
`(string, string) -> bool`. A record's `contents` is appended by string
conversion, and a record without `contents` contributes `"undefined"`. The
code does this, and the model follows it; the test file names the field
`content`, so its records take that path.

## Model

| member | source | states |
|---|---|---|
| ConcatPlugin.NormaliseFiles | lib/index.js:10-11 | a string or array `files` is kept; any other value becomes the pattern `**/*` |
| ConcatPlugin.NormaliseKeep | lib/index.js:14 | a boolean `keepConcatenated` is kept; any other value becomes `false` |
| ConcatPlugin.Configure | lib/index.js:8-14 | the factory fails exactly when `output` is undefined, with the missing-output error; otherwise `output` is used as its string key, `keepConcatenated` is true only for the boolean `true`, `metadata` is passed through, a string `files` selects glob mode with that pattern, an array selects list mode with its elements as string keys, and anything else selects `**/*` |
| ConcatPlugin.ConfigureNormalised | lib/index.js:9-14 | configuring again from the normalised options gives the same result: normalisation is idempotent |
| ConcatPlugin.Plugin | lib/index.js:8-14 | a missing options object fails with the missing-output error; otherwise the result is `Configure` of the old fields, `files` is rewritten normalised, and `keepConcatenated` is normalised only when `output` is present, because the check comes first |
| ConcatPlugin.Run | lib/index.js:22-29 | the step on the live map leaves it well formed and gives exactly the status and map of `Step` |
| ConcatPlugin.SelectSucceeds | lib/index.js:23-26 | when every input is found, either mode yields the inputs' contents joined in selection order, and the map without exactly the inputs (unchanged when kept) |
| ConcatPlugin.StepSucceeds | lib/index.js:22-29 | on success the map stays well formed; its keys are the old ones minus the consumed inputs plus `output`; every other entry keeps its record; the output record is the joined contents stamped with the metadata; the step fails only for a truthy non-object `metadata` |
| ConcatPlugin.StepListFails | lib/index.js:23-24 | in list mode, when the path at `j` is the first one not found, the step fails naming it before `output` is written; the earlier paths stay deleted unless kept |
| ConcatPlugin.KeepAddsOneKey | test/metalsmith-concat.js:66-74 | with `keepConcatenated` and a new `output` key, a successful step leaves exactly one more entry |
| ConcatPlugin.ConcatAllLeavesOnlyOutput | test/metalsmith-concat.js:56-63 | a pattern every key matches, without keep and without metadata, leaves only the output entry, holding every entry's contents in enumeration order |
| ConcatPlugin.NoMatchConcatenatesNothing | test/metalsmith-concat.js:45-53 | a pattern no key matches deletes nothing and stores an empty `contents` at `output` |
| Concat.NotFoundMessageNamesPath | lib/index.js:38 | the not-found message determines the path it names |
| Concat.ConcatArr | lib/index.js:35-43 | the loop over the list gives exactly the result and map of the front-recursive specification `ListConcat`, and keeps the map well formed |
| Concat.ListConcatSucceeds | lib/index.js:35-43 | when every path is present and (without keep) none repeats, the result is the listed contents joined in list order, and the map loses exactly the listed keys (none when kept) |
| Concat.ListConcatFailsAt | lib/index.js:37-40 | when the path at `j` is the first one not found, the error names it, and the map has lost exactly the paths before `j` (nothing when kept): there is no rollback |
| Concat.ListConcatSuccessIff | lib/index.js:37-40 | `concatArr` returns normally if and only if every path is present and, without keep, no path is listed twice |
| Concat.DuplicateFails | lib/index.js:38-40 | without keep, a path listed twice fails: its first visit deletes it |
| Concat.Filter | lib/index.js:50-51 | a key is selected exactly when it is a key and matches the pattern |
| Concat.GlobVisit | lib/index.js:50-53 | one visit of `concatObj` finds its key still present with its original record; it appends the contents and consumes the key exactly when the key matches |
| Concat.ConcatObj | lib/index.js:48-56 | the loop over a snapshot of the keys gives the contents of the matching keys of the entry map in enumeration order, and the map without exactly those keys (unchanged when kept) |
| Concat.Stamped | lib/index.js:62-69 | a falsy or non-object `metadata` leaves the record as it is; otherwise the record gains every own property of `metadata`, the metadata winning on shared keys and every other field kept |
| Concat.WithMetadata | lib/index.js:61-71 | `addMetadata` fails only for a truthy `metadata` that is not an object; the map keeps its keys and order, the output record is stamped, and every other entry is untouched |
| Concat.AddMetadata | lib/index.js:61-71 | the live operation gives exactly the status and map of `WithMetadata` |
| Concat.CopyProperties | lib/index.js:67-69 | after the copy loop the output record is the old record overwritten by every property; the order and the other entries are unchanged |
| FileMaps.RemoveKeys | lib/index.js:40 | deleting keys removes exactly those keys and keeps every other record |
| FileMaps.RemoveKeysTwice | lib/index.js:40 | deleting two sets of keys in turn is deleting their union, order included |
| FileMaps.Store | lib/index.js:24-26 | storing sets the record; an existing key keeps its place in the order and a new key goes last |
| FileMaps.FileMap.Delete | lib/index.js:40 | `delete files[key]` leaves the map well formed and equal to `RemoveKeys` of the old map |
| FileMaps.FileMap.Set | lib/index.js:24-26 | `files[key] = r` leaves the map well formed and equal to `Store` of the old map |
| FileMaps.FileMap.SetField | lib/index.js:68 | `files[key][field] = value` changes that field of that record and nothing else |
| JsValues.TypeOf | lib/index.js:65 | `typeof` is "object" exactly for null, arrays and objects |
| JsValues.OwnProperties | lib/index.js:67 | the own properties of an object are its fields |

## Left out

- Glob matching: `minimatch` is a parameter of the model, not modelled itself. So the empty pattern of the test matches nothing only as a premise of `NoMatchConcatenatesNothing`.
- The `metalsmith` argument is left out because the step never reads it. The `done` callback is modelled as the `Done` status.
- A thrown error is modelled as the `Failed` or `Failure` result.
- Key enumeration order: JavaScript lists integer-like keys first, in ascending order. The model keeps insertion order for every key and lets a new key go last.
- Record property order: a record is an unordered map. The order of a record's own properties is not modelled, so `Object.keys(files[output])` is not modelled either. In JavaScript that order is `contents` first, then the metadata keys in the order `addMetadata` writes them. `addMetadata` writes each key once, so the field values do not depend on that order, and the copy loop picks the keys in any order.
- Later mutation of the options object: the step reads the options object live. The model takes the normalised options as a `Config` value when the factory returns, so changes the caller makes afterwards are not modelled.
- Non-object options: a truthy options value that is not an object (a string, say) is not modelled. `Plugin` takes an options object or null.
- Record presence: `!files[filename]` is modelled as the key being in the map. A record is always an object, so a present record is truthy.
- Prototype names: the file map, the output record and the metadata are JavaScript objects, so some names resolve through their prototype (`constructor`, `toString`, `__proto__`, and so on). The model treats them as plain dictionaries. Suppose a path names a prototype property. `concatArr` then finds a truthy value, appends "undefined" and deletes nothing, whereas the model reports the path as missing. An `output` or metadata key `__proto__` replaces a prototype instead of adding an own key, whereas the model stores an entry.
- Values: numbers are integers (no floating point, NaN or -0), and Buffer contents are their decoded text. A number's string conversion is its plain decimal form. JavaScript agrees only below 10^21 in magnitude: from there it writes exponent form ("1e+21"). Integers above 2^53 are also rounded before JavaScript converts them.
- Functions, symbols and array holes are not modelled. This includes a function-valued `metadata`, which `typeof` calls "function".
- JsValues.OwnProperties: it is specified only for objects. For arrays it lists the decimal indices, and no lemma states their values.
