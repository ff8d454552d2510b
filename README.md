# uuid-online-generator, modelled in Dafny

A model of the browser UUID generator's logic in `src/uuid-generator.js`. It covers:

- how one UUID or a batch of UUIDs is obtained from the `uuid` package's
  generators, picked by the version selector, with the v3/v5 namespace
  fallback and the batch size check;
- how `formatUUID` renders a UUID as a string (upper or lower case, hyphens
  kept or removed), as hex, as binary or as base64;
- how the batch results become one text, one UUID per line;
- the page state: the current single UUID, the single display, the results
  area, the namespace fields' visibility and the output settings. It also
  covers what each event handler does to that state: generate, change
  version, format or radios, clear, copy and download.

Modules:

- `Wrappers`: `Option` and `Result`.
- `Strings`: the JavaScript string operations the code uses.
  - `replace(/c/g, …)` is `ReplaceAll`.
  - ASCII `toUpperCase`/`toLowerCase` are `ToUpper` and `ToLower`.
  - `join` is `Join`. `Split` is its inverse.
  - A number in a template literal is `DecimalString`.
- `Base64`: `btoa` on a string of character codes below 256. This is the
  encoding of section 4 of RFC 4648. Its partner is the RFC's decoding,
  proved to be the inverse.
- `UuidFormat`:
  - `Format` is `formatUUID`.
  - `FormatUUID` is the same function as a step-by-step method.
  - `CollectPairValues` is the base64 byte loop, proved against `PairValues`.
  - `IsCanonical` is the 8-4-4-4-12 hex layout.
  - `UuidBytes` is the 16 bytes a canonical UUID stands for.
- `Base64Quirk`: what the base64 byte loop reads from a canonical UUID.
  - The loop steps two characters at a time over the hyphenated string. It
    therefore reads the pairs starting at 0, 2, 4, 6, 10, 12, 14, 16, 20, 22,
    …, 34.
  - It never reads the digits at 9 and 19.
  - It reads the pairs at 12 and 22 as one digit followed by a hyphen, which
    `parseInt` cuts to one digit.
  - The 16 values it hands to `btoa` can therefore differ from the UUID's
    bytes, and only at bytes 4, 5, 8 and 9 (`Base64BytesOfCanonical`).
  - The rendering is not injective.
  - With a variant digit of 8 or more, as every UUID of the RFC 4122
    variant has, the 16 values are never all equal to the UUID's bytes, and
    the rendering never decodes to them (`Base64NotUuidBytes`).
  - Base64 of a UUID would naturally mean the encoding of its 16 bytes. The
    code does not do that, and the model follows the code.
- `Generation`:
  - `VersionOf` is the version switch; an unknown value gives v4.
  - `NameBased` is the v3/v5 branch with its `try`/`catch` fallback to the
    DNS namespace.
  - `Single` is single generation, whose fallback name is `default`.
  - `Batch` is the batch, specified entry by entry; the fallback names are
    `batch-${i}`.
  - `CollectBatch` is the batch loop, proved against `Batch`.
  - `ValidCount` is the count check.
- `Session`:
  - class `UuidSession` holds the page state. Its invariant `Valid` says that
    once a UUID exists, the single display shows it as the current settings
    format it.
  - `BatchText` is the results text.
  - `DownloadName` is the download's file name.

The `uuid` package's generators are a parameter, `Generation.Library`:
- `unnamed(v, tick)` is the result of `uuidv1`, `uuidv4`, `uuidv6` or `uuidv7`. Their clock and random state are abstracted by `tick`, the index of the call within one operation.
- `named(v, namespace, name)` is the result of `uuidv3` or `uuidv5`.
- `None` means the call throws.

The binary rendering `parseInt(h, 16).toString(2)` is the parameter `toBinary`. The ISO time string of the download is the parameter `now`.

## Model

| member | source | states |
|---|---|---|
| Strings.ReplaceAll | src/uuid-generator.js:314 | every occurrence of the character is replaced; with an empty or other-character replacement the character is gone; a one-character replacement keeps the length |
| Strings.RemoveAllLength | src/uuid-generator.js:314 | removing a character shortens the string by exactly its number of occurrences |
| Strings.RemoveAllKeepsOthers | src/uuid-generator.js:314 | removing a character keeps every other character exactly as often as it occurs |
| Strings.ReplaceAllKeepsAbsent | src/uuid-generator.js:344 | a character absent from the input and the replacement is absent from the result |
| Strings.ToUpper | src/uuid-generator.js:336 | same length, each character upper-cased (ASCII) in place |
| Strings.ToLower | src/uuid-generator.js:338 | same length, each character lower-cased (ASCII) in place |
| Strings.Fold | src/uuid-generator.js:334-340 | the case conversion the `upper` option picks; its properties are in `FoldKeepsAbsent` and `FoldCommutesWithHyphenRemoval` |
| Strings.FoldKeepsAbsent | src/uuid-generator.js:334-340 | case conversion never introduces a character that is not a letter |
| Strings.FoldCommutesWithHyphenRemoval | src/uuid-generator.js:333-345 | converting case then removing hyphens equals removing hyphens then converting case |
| Strings.Join | src/uuid-generator.js:356 | `join`: the parts with the separator between consecutive parts; `Split` inverts it (`SplitJoin`) |
| Strings.SplitJoin | src/uuid-generator.js:356 | splitting the joined lines at the separator gives the lines back, when none contains it |
| Strings.JoinSeparatorCount | src/uuid-generator.js:356 | joining n separator-free lines puts exactly n-1 separators in the text |
| Strings.DecimalString | src/uuid-generator.js:240 | the decimal rendering is nonempty, all digits, one digit exactly below 10 |
| Strings.DecimalStringInjective | src/uuid-generator.js:240 | distinct numbers render differently |
| Strings.DecimalStringValue | src/uuid-generator.js:240 | the digits of `${i}` denote `i` |
| Base64.Encode | src/uuid-generator.js:329 | the output length is a multiple of 4 and is empty exactly for no input |
| Base64.EncodeAlphabet | src/uuid-generator.js:329 | the output uses only the 64 symbols and `=` |
| Base64.EncodeLength | src/uuid-generator.js:329 | four characters per started group of three bytes |
| Base64.EncodeUnpadded | src/uuid-generator.js:329 | a byte count divisible by 3 gives no `=` |
| Base64.EncodeDoublePadded | src/uuid-generator.js:329 | one byte left over gives a symbol then `==` at the end |
| Base64.EncodeSinglePadded | src/uuid-generator.js:329 | two bytes left over give a symbol then `=` at the end |
| Base64.DecodeEncode | src/uuid-generator.js:329 | decoding the encoding gives the bytes back |
| Base64.RfcOneGroupVectors | src/uuid-generator.js:329 | the RFC 4648 section 10 vectors for the empty string, `f`, `fo` and `foo` |
| Base64.RfcTestVectors | src/uuid-generator.js:329 | the RFC 4648 section 10 vectors for `foob`, `fooba` and `foobar` |
| Base64.EncodeInjective | src/uuid-generator.js:329 | distinct byte strings encode differently |
| UuidFormat.ParseHex | src/uuid-generator.js:326 | on the pairs of a UUID string (no whitespace, sign or `x`), `parseInt(t, 16)` of at most two characters is a number exactly when `t` starts with a hex digit, and is then below 256 |
| UuidFormat.ReadPair | src/uuid-generator.js:326 | `parseInt` of the two characters at an index, through `ParseHex`; `ReadHexPair` and `ReadHexBeforeHyphen` state its value on two hex digits and on a digit before a hyphen |
| UuidFormat.PairValues | src/uuid-generator.js:323-328 | what the byte loop collects from index `i` on; specified against a canonical UUID by `PairValuesOfCanonical` |
| UuidFormat.PairValuesAreBytes | src/uuid-generator.js:323-328 | every number the byte loop collects is below 256 |
| UuidFormat.CollectPairValues | src/uuid-generator.js:323-328 | the loop collects `parseInt` of the pair at each even index whose character is not a hyphen, in order |
| UuidFormat.CharCodes | src/uuid-generator.js:329 | one character code per collected value |
| UuidFormat.CharCode | src/uuid-generator.js:329 | `String.fromCharCode` of one collected value, `NaN` giving 0 |
| UuidFormat.Base64Input | src/uuid-generator.js:323-329 | the byte string `btoa` receives; related to the UUID's bytes by `Base64BytesOfCanonical` |
| UuidFormat.CaseOption | src/uuid-generator.js:303 | the checked case radio's value, `lower` when none is checked; used by `MissingRadiosDefault` |
| UuidFormat.LineOption | src/uuid-generator.js:304 | the checked line radio's value, `keep` when none is checked; used by `MissingRadiosDefault` |
| UuidFormat.Format | src/uuid-generator.js:297-348 | `formatUUID` as a function of the UUID and the settings; its per-format properties are the lemmas below |
| UuidFormat.FormatUUID | src/uuid-generator.js:297-348 | the step-by-step method computes `Format`: the format switch, then case for `string`, then hyphen removal for `string` with `remove` |
| UuidFormat.HexFormat | src/uuid-generator.js:313-315 | hex drops every hyphen and keeps every other character, in its case, as often as it occurs; a canonical UUID gives its 32 hex digits in order |
| UuidFormat.StringFormatKeepsLayout | src/uuid-generator.js:333-340 | `string` without `remove` keeps length and hyphens, upper-cases for `upper`, lower-cases otherwise; a canonical UUID stays canonical |
| UuidFormat.StringRemoveIsFoldedHex | src/uuid-generator.js:343-345 | `string` with `remove` is the hex rendering, case-converted |
| UuidFormat.OnlyStringFormatUsesCaseAndLine | src/uuid-generator.js:309-346 | for every other format the radios make no difference; an unknown format returns the UUID unchanged |
| UuidFormat.MissingRadiosDefault | src/uuid-generator.js:303-304 | without checked radios, `string` is lower case with hyphens kept |
| Base64Quirk.PairValuesOfCanonical | src/uuid-generator.js:323-328 | on a canonical UUID the loop makes 16 reads, at every even index but the hyphens at 8 and 18 |
| Base64Quirk.Base64BytesOfCanonical | src/uuid-generator.js:323-329 | the 16 encoded values equal the UUID's bytes except at 4, 5, 8, 9, where they are shifted by one hex digit or cut to one digit |
| Base64Quirk.Base64Format | src/uuid-generator.js:321-330 | a canonical UUID renders as 24 characters ending in `==`, decoding to the loop's values |
| Base64Quirk.Base64IgnoresSkippedDigits | src/uuid-generator.js:323-328 | UUIDs differing only at indices 9 and 19 render the same |
| Base64Quirk.Base64NotInjective | src/uuid-generator.js:323-328 | changing the digit at 9 gives another canonical UUID, with another fifth byte, and the same rendering |
| Base64Quirk.Base64NotUuidBytes | src/uuid-generator.js:321-330 | with a variant digit of 8 or more, the rendering never decodes to the UUID's bytes |
| Generation.VersionOf | src/uuid-generator.js:153-196 | the version switch; `VersionOfLabel` states its behaviour |
| Generation.NameBased | src/uuid-generator.js:157-170 | the v3/v5 branch with its fallback; `NameBasedArguments` states which call it makes |
| Generation.GenerateOne | src/uuid-generator.js:153-196 | one trip through the switch: the v3/v5 branch or the version's own generator |
| Generation.Single | src/uuid-generator.js:145-197 | single generation: one trip with the fallback name `default` |
| Generation.ValidCount | src/uuid-generator.js:217 | the count is a number between 1 and 1000000 |
| Generation.VersionOfLabel | src/uuid-generator.js:153-197 | each version label selects its version; any other value generates v4 |
| Generation.NameBasedArguments | src/uuid-generator.js:157-170 | with namespace and name, their hash, or on a throw the namespace hashed as a name in the DNS namespace; otherwise the fallback name in the DNS namespace; it fails only if the last call made throws |
| Generation.NameBasedNeverFails | src/uuid-generator.js:160-166 | if the DNS namespace is accepted with every name, the v3/v5 branch never fails |
| Generation.BatchName | src/uuid-generator.js:240 | the fallback name of batch entry i, `batch-${i}`; `BatchNamesDistinct` and `DecimalStringValue` state its properties |
| Generation.BatchNamesDistinct | src/uuid-generator.js:240 | the names `batch-${i}` of distinct entries differ |
| Generation.Batch | src/uuid-generator.js:223-268 | a successful batch has exactly the requested number of entries |
| Generation.CollectBatch | src/uuid-generator.js:223-268 | the loop returns the batch, or nothing once an entry throws |
| Generation.BatchEntries | src/uuid-generator.js:225-268 | a batch succeeds iff every entry does; entry i is the i-th trip through the switch with name `batch-${i}` |
| Generation.BatchFailurePersists | src/uuid-generator.js:222-275 | a throw abandons the batch whatever the count |
| Generation.BatchPrefix | src/uuid-generator.js:225-268 | a shorter batch is a prefix of a longer one |
| Generation.BatchRepeatsNamedUuid | src/uuid-generator.js:232-255 | a v3/v5 batch given namespace and name has all entries equal |
| Generation.BatchDefaultNamesDistinct | src/uuid-generator.js:238-254 | without namespace or name, a v3/v5 batch's entries are pairwise distinct if the hash separates the batch's own names `batch-0` … `batch-${n-1}` |
| Generation.BatchCanonical | src/uuid-generator.js:225-268 | a library of canonical UUIDs gives a batch of canonical UUIDs |
| Session.FormatAll | src/uuid-generator.js:355 | each UUID formatted |
| Session.BatchText | src/uuid-generator.js:355-356 | the formatted UUIDs joined by line breaks; read back by `BatchTextLines` |
| Session.DownloadName | src/uuid-generator.js:463 | the file name of a download; `DownloadNameShape` states its form |
| Session.FormatWithoutNewline | src/uuid-generator.js:297-348 | no format adds a line break (given a binary rendering without one) |
| Session.BatchTextLines | src/uuid-generator.js:354-356 | the results text splits back into the formatted UUIDs and has one line break fewer than UUIDs |
| Session.ShownBatchLines | src/uuid-generator.js:270 | a shown batch of canonical UUIDs reads back line by line as its n formatted UUIDs |
| Session.CanonicalHasNoNewline | src/uuid-generator.js:356 | a canonical UUID holds no line break |
| Session.DownloadNameShape | src/uuid-generator.js:463 | an ISO timestamp gives a 29-character name without `:`, its time joined by `-` |
| Session.DownloadNameDeterminesSecond | src/uuid-generator.js:463 | two timestamps give the same name iff they agree to the second |
| Session.UuidSession.constructor | src/uuid-generator.js:71 | the page starts with no current UUID |
| Session.UuidSession.UpdateSingleDisplay | src/uuid-generator.js:285-290 | nothing happens without a current UUID; otherwise the display shows it formatted; the invariant holds |
| Session.UuidSession.ChangeFormat | src/uuid-generator.js:387-389 | the display is re-rendered; the results area keeps its old format |
| Session.UuidSession.ChangeRadios | src/uuid-generator.js:128-136 | a radio change re-renders the display |
| Session.UuidSession.GenerateSingle | src/uuid-generator.js:145-204 | it succeeds exactly when the generator does; on success the new UUID is current and displayed; on a throw nothing changes |
| Session.UuidSession.ChangeVersion | src/uuid-generator.js:369-382 | the namespace fields are shown exactly for `v3` and `v5`, then a single UUID is generated: it succeeds exactly when the generator does, and the display shows the new UUID |
| Session.UuidSession.GenerateBatch | src/uuid-generator.js:210-276 | it succeeds exactly for a valid count and a batch without throws, and the results are then the batch, formatted, one per line; an invalid count or a throw is refused with the results unchanged |
| Session.UuidSession.ClearResults | src/uuid-generator.js:478-480 | the results area is emptied, nothing else changes |
| Session.UuidSession.CopySingle | src/uuid-generator.js:398-401 | the display text is copied iff nonempty; an empty display is ignored without error; once a UUID exists, a nonempty copy is that UUID as currently formatted |
| Session.UuidSession.CopyBatch | src/uuid-generator.js:422-428 | the results are copied iff nonempty; otherwise the nothing-to-copy error |
| Session.UuidSession.Download | src/uuid-generator.js:449-463 | a plain text file named from the timestamp and holding the results, iff nonempty; otherwise the nothing-to-download error |

## Left out

- The binary format. `parseInt(hex, 16)` of 32 hex digits is a floating-point number, so its `toString(2)` loses precision. It is the parameter `toBinary`. The only property assumed of it is that it has no line break, where that matters.
- The UUID algorithms of the `uuid` package: time, randomness, MD5 and SHA-1 hashing, and namespace validation. They are the `Library` parameter.
- `trim()` of the namespace and name inputs and `parseInt` of the batch count. The model receives the trimmed strings, and the count as a number or `None` (NaN).
- `parseInt` on text beyond two characters, and its whitespace, sign and `0x` handling. The byte loop never passes more than two characters.
- Unicode case mapping. `toUpperCase`/`toLowerCase` are modelled on ASCII letters only, which is all a UUID holds.
- DOM access, the clipboard API and its `execCommand` fallback, and the copy-success feedback timer. Also left out: `Blob` and object URLs, the link click, `alert`, console logging and the global error handlers. Copy and download return the text or the file instead.
- The DOMContentLoaded start-up is the constructor followed by `GenerateSingle`; the listener wiring itself is not modelled.
- The `!singleUuidInput` guard in `updateSingleUUIDDisplay`: the display element is taken to exist.
- Session.UuidSession.ChangeRadios: case and line radio changes are modelled as one method that sets both radios. In the source, each radio's `change` event sets one of them.
