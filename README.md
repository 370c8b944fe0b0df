# picgo-plugin-sharp, modelled in Dafny

`picgo-plugin-sharp` is a transformer for the PicGo uploader. Its `handle`
takes the list of image references in `ctx.input` (URLs or local paths) and
turns each one into an output record in `ctx.output`. For each reference it:

- fetches the image over HTTP, or reads it from disk;
- re-encodes it with sharp into the configured format (`webp` when nothing is
  configured);
- names the record after the reference's base name plus the new extension;
- measures the original's width and height;
- emits whichever of the original and the encoding is smaller.

A reference that fails at any step is logged and adds nothing. Its `config`
offers the six formats as a required list option whose displayed default is
`avif`.

The model is split into these modules:

- `Strings`: substring search (`String.prototype.includes`) and `split("?")[0]`.
- `PosixPath`: Node's `path.posix.extname`, plus `basename(p, extname(p))` for that suffix.
- `Formats`: the `TransformType` union, `transformTypeList`, and key dispatch through `transformFnMap`.
- `Settings`: runtime configuration defaulting, option-bag lookup, and the config schema.
- `Pipeline`: one item's path from its reference to its record or error.
   - The foreign collaborators are gathered in an `Env` value, with one table
     each for axios GET, `readFile`, the sharp encoder and image-size.
   - A missing table entry is a call that throws.
- `Batch`: what a whole run appends, for any per-item task. It also proves failure isolation, counting, soundness, completeness and order-independence.
- `Plugin`: the host context as a class.
   - `Context.Handle` is the imperative loop over `ctx.input` that appends to
     the `output` field.
   - `Context.HandleItem` is one item's steps, including the rebinding of
     `transformBuffer`.
   - Each method is proved equal to its specification functions.

About the defaults: with no stored `outputType`, a run encodes to `webp`
(`index.ts:97`) while the schema displays `avif` (`index.ts:152`). The model
keeps both values as written, and `Settings.DefaultsDifferOnlyWhenUnset`
states the difference.

## Model

| member | source | states |
|---|---|---|
| Strings.Includes | index.ts:26 | `includes` is true exactly when the needle occurs at some position of the string |
| Strings.BeforeFirst | index.ts:39 | `split("?")[0]` is the longest prefix without the separator; if it is shorter than the input, the separator follows it |
| Strings.BeforeFirstSplit | index.ts:39 | cutting `a + "?" + b` where `a` has no `?` gives back `a` |
| Strings.LastIndexOf | index.ts:40 | (helper for the path model, which finds the last `/` and `.` with it) the index of the last occurrence of a character, or -1; nothing after it is that character |
| PosixPath.TrimTrailingSlashes | index.ts:40 | the trimmed path is a prefix that does not end in `/`, and only `/` were removed |
| PosixPath.LastSegment | index.ts:40 | the last segment contains no `/` |
| PosixPath.LastSegmentIsLast | index.ts:40 | the last segment is a suffix of the trimmed path, and is either all of it or preceded by `/` |
| PosixPath.ExtName | index.ts:40 | `extname` is empty, or a suffix of the last segment that starts with its only `.` and is strictly shorter than the segment |
| PosixPath.NoExtension | index.ts:40 | `extname` is empty exactly when the segment has no `.` after its first character, or is `..` |
| PosixPath.Stem | index.ts:40 | the base name followed by the extension is the last segment; it has no `/` and is non-empty when the segment is non-empty |
| PosixPath.StemAvoids | index.ts:40 | a character absent from the path is absent from its base name |
| Pipeline.RealBaseName | index.ts:38-41 | the result has no `/` and no `?`; followed by the extension of the part before the first `?`, it is that part's last segment |
| Pipeline.RealBaseNameExample | index.ts:38-41 | `realBaseName("https://site/a/photo.JPG?x=1") == "photo"` |
| Pipeline.SchemeHereMeans | index.ts:109 | `https?:\/\/` matches at a position exactly when `http://` or `https://` starts there |
| Pipeline.IsRemote | index.ts:109 | a reference is remote exactly when `http://` or `https://` occurs anywhere in it |
| Pipeline.IsRemoteUnanchored | index.ts:109 | the test is unanchored and case-sensitive: `/tmp/https://cache/a.png` is remote; `HTTPS://site/a.png` and `/home/u/photo.png` are local |
| Pipeline.Fetch | index.ts:19-36 | a fetch succeeds exactly when the GET succeeds and the content type contains "image"; it then yields the body; a missing header is its own rejection |
| Pipeline.ReadLocal | index.ts:111 | a read succeeds exactly when the file can be read, yielding its bytes; otherwise it is a read failure |
| Pipeline.Retrieve | index.ts:109-111 | remote references are fetched; all others are read from disk |
| Pipeline.RetrieveUsesOneCollaborator | index.ts:109-111 | a remote item's original depends only on the HTTP table, a local one's only on the file table |
| Formats.NameInjective | index.ts:59 | distinct formats have distinct keys |
| Formats.TransformTypeListComplete | index.ts:43-50 | `transformTypeList` has six entries, all distinct, and lists every format |
| Formats.Dispatch | index.ts:78-92 | `transformFnMap[key]` finds format `t` exactly when `key` is `t`'s name |
| Pipeline.Convert | index.ts:104-123 | an unknown key fails the conversion; otherwise it succeeds exactly when the encoder for that format succeeds on (origin, outputOptions, inputOptions), yielding its output |
| Pipeline.SelectBuffer | index.ts:128-137 | the original is kept exactly when strictly shorter (ties go to the encoding); the emitted length is the minimum; the warning fires exactly when the original is kept |
| Pipeline.ProcessItem | index.ts:108-142 | errors propagate; success happens exactly when retrieve, encode and measure succeed; `extname` is `"." + outputType`; `fileName` is the base name plus `extname`; the size comes from the original; the buffer and warning come from the size guard |
| Pipeline.NonImageNeverEncoded | index.ts:25-33 | a remote item whose response has no image content type fails with a content-type error, whatever the encoder and file tables hold |
| Pipeline.MetadataIndependentOfEncoder | index.ts:125-141 | two runs that differ only in the encoder give the same file name, extension, width and height |
| Pipeline.EmittedBufferIsShorter | index.ts:128-137 | the emitted buffer is no longer than either candidate, and the warning fires exactly when it is not the encoding |
| Settings.BagFor | index.ts:98-99 | `sharpCfg?.xOptions?.[key]` is present exactly when a bag is stored under the key, and is that bag |
| Settings.Resolve | index.ts:95-99 | the output type is the stored value or `webp`; both option bags are looked up by that key and may be absent |
| Settings.Choices | index.ts:158 | choice `i` is the name of the `i`-th entry of `transformTypeList` |
| Settings.Schema | index.ts:150-163 | one required `list` item named `outputType` with alias 压缩格式; its choices are the formats; its default is the stored value or `avif` |
| Settings.SchemaChoicesAreTheFormats | index.ts:150-163 | the schema offers exactly six distinct choices, one per format, and every choice has an encoder |
| Settings.DefaultsDifferOnlyWhenUnset | index.ts:97 | the displayed default of `config` (line 152) and runtime defaults agree when a value is stored; otherwise they are `avif` and `webp` |
| Batch.Contribution | index.ts:133-145 | an item adds at most one record: its own exactly when its task succeeded |
| Batch.Emitted | index.ts:106-147 | a run appends at most one record per item |
| Batch.SuccessCount | index.ts:106-147 | the number of successful items is bounded by the batch size |
| Batch.EmittedAppend | index.ts:106-147 | items are independent: a run over `xs + ys` emits what `xs` emits, then what `ys` emits |
| Batch.EmittedSingle | index.ts:106-147 | a one-item run emits that item's contribution |
| Batch.EmittedPrefix | index.ts:106-147 | running one more item appends that item's contribution |
| Batch.EmittedStep | index.ts:106-147 | the loop step: appending item `i`'s contribution to what the first `i` items gave is what the first `i + 1` give |
| Batch.EmittedMiddle | index.ts:106-147 | an item in the middle of a batch contributes its record (or nothing) between the records of the items before and after it |
| Batch.EmittedAt | index.ts:106-147 | the same, stated for item `j` of a batch |
| Batch.FailedItemIsolated | index.ts:113-145 | a failing item adds nothing and does not stop the items after it |
| Batch.EmittedCount | index.ts:106-147 | the output grows by exactly the number of successful items |
| Batch.AllSucceed | index.ts:106-147 | when every item succeeds, every item yields a record |
| Batch.OneFailure | index.ts:106-147 | with only item `k` failing, the output is the records before `k` followed by those after it: `N - 1` records |
| Batch.EmittedRecordsSound | index.ts:133-142 | every emitted record is the record of some successful item |
| Batch.EmittedRecordsComplete | index.ts:133-142 | every successful item's record is emitted |
| Batch.EmittedPermutation | index.ts:106 | reordering the items (any completion order) emits the same multiset of records |
| Batch.EmittedRecordsNamed | index.ts:125-141 | every record of a run has `extname == "." + outputType` and `fileName == realBaseName(item) + extname` for its item |
| Plugin.Context.constructor | index.ts:94-96 | the context holds the given input, configuration and output |
| Plugin.Context.HandleItem | index.ts:107-145 | one item's steps leave `output` extended by exactly that item's contribution |
| Plugin.Context.Handle | index.ts:94-148 | after `handle`, `output` is the old output, unchanged, followed by the records of the successful items in input order |

## Left out

- axios, `fs/promises.readFile`, sharp and image-size (`index.ts:19-23`, `68-76`, `111`, `114-118`, `127`) are foreign I/O and codecs.
   - Each is a finite table in `Env`, and a missing entry means the call throws.
   - The HTTP table maps a URL to headers and body. A redirect that axios follows is the entry holding the final response. A request that fails, including one with a non-2xx status, is a missing entry.
- Calls that never settle are not modelled. No `timeout` is passed (`index.ts:21-23`), so an axios, `readFile`, sharp or image-size call that stays pending leaves `await Promise.all` (`index.ts:106`), and so `handle`, pending forever. `Plugin.Context.Handle` always returns.
- Concurrency from `Promise.all` (`index.ts:106`): the batch runs in input order.
   - Host completion order may differ, and `Batch.EmittedPermutation` states the result up to order.
   - Interleaving inside an item is not modelled.
- Logging and `JSON.stringify` (`index.ts:100-102`, `119`, `121`, `129-131`, `144`) have no effect on the output. The one exception is the size warning, kept as the `warned` flag.
- `null` and `undefined` configuration values are both `None`. That is exact for `??` at `index.ts:97`.
- `Settings.Schema`: folding `null` into `None` is not exact for the destructuring default at `index.ts:152`. A stored `outputType: null` makes `config` show `null`, while `Settings.Schema` and `Settings.DefaultsDifferOnlyWhenUnset` give `avif`.
- Config values are strings, and any stored string is passed through. The schema's choice restriction is not enforced at run time, which is why `Convert` models an unknown key.
- A key such as `constructor`, which `transformFnMap` would resolve through `Object.prototype`, is treated like any other unknown key: the conversion fails.
- Header values are strings. Node's array-valued headers are not modelled, and neither is case-insensitive header lookup; the key must be exactly `content-type`.
- Plugin registration and export wiring (`index.ts:165-176`) is host lifecycle plumbing.
- `Pipeline.RealBaseName` follows Node's POSIX `path`. The source imports `basename` and `extname` from `"path"` (`index.ts:4`), which is `path.win32` on Windows hosts. There `\` and a drive prefix also separate segments, so `realBaseName("C:\\u\\photo.png")` is `"photo"` on Windows. The win32 semantics are not modelled.
- `PosixPath.Stem` models `basename(p, ext)` only for the suffix `extname(p)` produces, which is the only way the plugin calls it.
- `Pipeline.ProcessItem`: the error raised inside the inner `catch` (`index.ts:122`) wraps the encoder's error. The model keeps only its kind, `ConvertFailed`.
- `Pipeline.ProcessItem`: image-size's `undefined` width or height for some formats is not modelled; a measured size always has both.
- Byte buffers are sequences of bytes. The POSIX path operations work on UTF-16 code units in Node and on Dafny characters here.
