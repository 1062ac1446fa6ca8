# Mega Drive ROM header and SGDK toolchain helpers, in Dafny

This project models two parts of a VS Code extension for Sega Mega Drive
development with SGDK:

- **The ROM header serializer** (`src/rom_header_editor.js`). It holds
  `FixedLengthString` (a text field with a width and a pad) and
  `RomHeader`. `RomHeader` is a class whose public fields are assigned in
  place. Its `emitbuffer` fills a fresh 256-byte buffer field by field.
  - The file also defines a `padEnd` polyfill, installed only where
    `String.prototype.padEnd` is missing. Any host that runs the extension
    has the built-in, so the built-in is what runs. The model follows the
    polyfill, and `FixedStrings.PolyfillAgreesWithNative` proves that the
    two agree for a non-empty pad and a target below 2^31. `emitbuffer`
    itself never calls `padEnd`: it reads `charCodeAt`. `TrimPadString`
    serves as the reference meaning of a text field in `Stored`, the form
    in which a field reads back from the bytes.
  - The model keeps that shape: a Dafny `class RomHeader` whose
    `EmitBuffer` method fills a fresh `array<Byte>`, one loop or a few
    stores per field.
  - `EmitBuffer` is proved to produce exactly `Encode(Fields())`, the byte
    layout stated as a concatenation of field encodings.
  - `Decode` reads every field back from its offset. The round trip
    `Decode(Encode(h)) == Stored(h)` is proved: text is cut or pad-filled
    to its width, memory bounds come back modulo 2^32, the SRAM type modulo
    2^16, the checksum is zero, and the SRAM signature is `"RA"` or two
    spaces.
- **The toolchain option and command-line helpers** (`src/sgdk.js`):
  - the compiler, assembler and linker option objects, their Release and
    Debug presets, and the `Object.assign` merge of overrides onto them;
  - the rendering of defines, flags and include paths;
  - the object-file name of a source file;
  - the three command lines handed to the shell.

  These objects never change after construction, so they are datatypes and
  the helpers are functions. Each is paired with a reference meaning:
  - `Object.assign` is right-biased union of dictionaries;
  - a `-D` argument parses back to its define;
  - a command line splits into shell arguments (`ShellWords.Words`).

Modules: `Js` (the ECMAScript built-ins used), `FixedStrings`,
`RomHeaderEditor`, `ShellWords` and `Sgdk`. Bytes are a newtype over `int`
in `0..255`. Characters are Dafny `char`s, one per Unicode scalar value.

The header follows the code where a description of the format might say
otherwise:
- the I/O-support and modem fields are padded with spaces, not NULs,
  because no pad argument is passed;
- the checksum bytes are only zeroed and never computed.

## Model

| member | source | states |
|---|---|---|
| Js.ToInt32 | src/rom_header_editor.js:5 | `targetLength >> 0` gives a signed 32-bit value congruent to the input modulo 2^32 |
| Js.Substr | src/rom_header_editor.js:27 | `substr(0, n)` keeps the first `n` characters, or the whole string when it is shorter, and never more than `n` |
| Js.LastIndexOf | src/sgdk.js:382 | -1 exactly when the character is absent; otherwise a position holding it with no occurrence after it |
| Js.Repeat | src/rom_header_editor.js:13 | `repeat(n)` is `n` copies long and cycles through the repeated string |
| Js.DecimalDigits | src/rom_header_editor.js:44 | the digits of a non-negative integer read back as that integer, with no leading zero |
| Js.NumberToString | src/rom_header_editor.js:44 | the rendering of an integer reads back as the integer: its digits without leading zeros, after `-` for a negative one |
| Js.FourDigitYear | src/rom_header_editor.js:44 | a four-digit year renders as exactly its four digits, thousands first, so the copyright line fills its 16 bytes exactly |
| Js.Join | src/sgdk.js:115 | no contract of its own: `Array.prototype.join`; `ShellWords.WordsJoin` states what a space-join splits into |
| FixedStrings.PadOrSpace | src/rom_header_editor.js:27 | the pad argument, defaulting to a space, is never empty |
| FixedStrings.PadEnd | src/rom_header_editor.js:3-17 | throws exactly when the pad is empty and there is something to fill; a string at least as long as the ToInt32 target comes back unchanged; otherwise the result has the target length, starts with the string and continues cyclically with the pad |
| FixedStrings.ExtendedPad | src/rom_header_editor.js:12-14 | the pad extended by its repetitions is longer than what is missing and cycles through the pad |
| FixedStrings.PolyfillAgreesWithNative | src/rom_header_editor.js:3-17 | with a non-empty pad and a 32-bit target, the polyfill computes what the built-in `padEnd` computes |
| FixedStrings.TrimPadString | src/rom_header_editor.js:26-28 | the result has exactly the width; it is the prefix of the string when the string is long enough, and otherwise the string followed by pad characters |
| FixedStrings.FixedLengthString.CharCodeAt | src/rom_header_editor.js:32-37 | `charCodeAt(i)` is, at every width beyond `i`, the i-th character of the string trim-padded with the pad's first character |
| FixedStrings.NewFixedLengthString | src/rom_header_editor.js:21-25 | a new field keeps its length, reads its initial text, and past the text reads the pad's first character, or a space (0x20) when no pad is given |
| RomHeaderEditor.TextBytes | src/rom_header_editor.js:66-68 | a text field contributes exactly its width in bytes |
| RomHeaderEditor.DefaultFields | src/rom_header_editor.js:41-62 | every default text field is declared with the width `emitbuffer` writes for it and pads with a space |
| RomHeaderEditor.ClampByte | src/rom_header_editor.js:65-67 | a code below 256 is stored as is, and any larger code is stored as 255 |
| RomHeaderEditor.TextByte | src/rom_header_editor.js:66-67 | the byte for position `i` is `charCodeAt(i)` when that is below 256, and 255 otherwise |
| RomHeaderEditor.ShiftMask | src/rom_header_editor.js:88 | no contract of its own: `(x >> s) & 0xff` through ToInt32; `RomHeaderEditor.ShiftMaskUnsigned` states its meaning |
| RomHeaderEditor.BigEndian16 | src/rom_header_editor.js:114-115 | the SRAM type is written as two bytes; `RomHeaderEditor.BigEndian16RoundTrip` states what they hold |
| RomHeaderEditor.SramSignature | src/rom_header_editor.js:107-113 | the two signature bytes read as `RA` with SRAM and as two spaces without |
| RomHeaderEditor.Encode | src/rom_header_editor.js:63-135 | the header image is exactly 256 bytes; `RomHeaderEditor.FieldOffsets` places each field in it |
| RomHeaderEditor.BigEndian32 | src/rom_header_editor.js:88-91 | a memory bound is written as four bytes |
| RomHeaderEditor.FieldOffsets | src/rom_header_editor.js:63-135 | the header is 256 bytes, and the fields tile it without gaps or overlaps at 0, 16, 32, 80, 128, 142 (checksum, zero), 144, 160, 164, 168, 172, 176 (signature), 178 (SRAM type), 180, 184, 188, 200 and 240 |
| RomHeaderEditor.ShiftMaskUnsigned | src/rom_header_editor.js:88 | `(x >> s) & 0xff` is byte `s/8` of `x` modulo 2^32 |
| RomHeaderEditor.BigEndian32RoundTrip | src/rom_header_editor.js:87-106 | reassembling the four bytes of a bound gives the bound modulo 2^32 |
| RomHeaderEditor.BigEndian16RoundTrip | src/rom_header_editor.js:114-115 | reassembling bytes 178-179 gives the SRAM type modulo 2^16 |
| RomHeaderEditor.TextRoundTrip | src/rom_header_editor.js:66-80 | for Latin-1 text, the bytes of a field read back as the string trim-padded to the width |
| RomHeaderEditor.RoundTrip | src/rom_header_editor.js:63-136 | reading the emitted header back yields every field as stored: text trim-padded, bounds modulo 2^32, SRAM type modulo 2^16, checksum 0, signature "RA" or two spaces |
| RomHeaderEditor.DefaultHeaderImage | src/rom_header_editor.js:41-62 | a new header reads back as "SEGA MEGA DRIVE " and the other default texts space-padded ("SAMPLE GAME" plus 37 spaces), ROM 0-0x100000, RAM 0xff0000-0xffffff, no SRAM signature, SRAM 0x200000-0x2001ff |
| RomHeaderEditor.DefaultStored | src/rom_header_editor.js:43-61 | the stored form of each default field |
| RomHeaderEditor.DefaultsAreLatin1 | src/rom_header_editor.js:43-61 | every default text, including the copyright year, fits in one byte per character |
| RomHeaderEditor.SpacePadded | src/rom_header_editor.js:26-28 | a short string trim-padded with the default pad is the string followed by spaces |
| RomHeaderEditor.WriteText | src/rom_header_editor.js:66-68 | one text loop writes the field's bytes at its offset, keeps the bytes already written and leaves the bytes after the field as they were |
| RomHeaderEditor.WriteBigEndian32 | src/rom_header_editor.js:88-91 | four stores write the bound big-endian at its offset and touch nothing after it |
| RomHeaderEditor.WritePair | src/rom_header_editor.js:82-83 | two single-byte stores extend the written prefix by two bytes |
| RomHeaderEditor.RomHeader.constructor | src/rom_header_editor.js:41-62 | the fields of a new header are the defaults, with the given copyright year |
| RomHeaderEditor.RomHeader.EmitBuffer | src/rom_header_editor.js:63-136 | a fresh 256-byte buffer whose contents are exactly the encoding of the current fields |
| ShellWords.WordsAppend | src/sgdk.js:213 | the arguments of `a + " " + b` are those of `a` followed by those of `b` |
| ShellWords.WordsJoin | src/sgdk.js:119 | `join(" ")` yields the arguments of each element, in order |
| ShellWords.SplitJoin | src/sgdk.js:115 | a list of single arguments joined with spaces splits back into the same list |
| ShellWords.Spaced | src/sgdk.js:264 | a space between two pieces of a command separates their arguments |
| Sgdk.AssignCC | src/sgdk.js:89 | `Object.assign` on compiler options, key by key: the source's value when it has the key, the target's otherwise |
| Sgdk.AssignAS | src/sgdk.js:143 | the same, key by key, for the assembler options |
| Sgdk.AssignLD | src/sgdk.js:180 | the same, key by key, for the linker options |
| Sgdk.AssignCCIsUnion | src/sgdk.js:89 | merging compiler options is right-biased union: the result has every key of either object, and the override's value wins |
| Sgdk.AssignASIsUnion | src/sgdk.js:143 | the same for the assembler options |
| Sgdk.AssignLDIsUnion | src/sgdk.js:180 | the same for the linker options |
| Sgdk.NewCCOptions | src/sgdk.js:87-90 | `new CCOptions(o)` is the Release defaults overridden by the keys of `o`, or the defaults alone for a null `o`; include paths, defines and flags are always present |
| Sgdk.NewASOptions | src/sgdk.js:141-144 | `new ASOptions(o)` is the defaults overridden by `o`; defines are always present |
| Sgdk.NewLDOptions | src/sgdk.js:179-181 | `new LDOptions(o)` is the defaults overridden by `o`; linker script, flags and libraries are always present |
| Sgdk.CCDefaults | src/sgdk.js:63-69 | no contract of its own: the Release compiler preset; `Sgdk.DebugPresetDifferences` and `Sgdk.PresetsCompileCleanly` state its properties |
| Sgdk.CCDefaultsDebug | src/sgdk.js:75-81 | no contract of its own: the Debug compiler preset; stated by the same two lemmas |
| Sgdk.ASDefaults | src/sgdk.js:125-129 | no contract of its own: the Release assembler preset; stated by `Sgdk.DebugPresetDifferences` |
| Sgdk.ASDefaultsDebug | src/sgdk.js:131-135 | no contract of its own: the Debug assembler preset; stated by `Sgdk.DebugPresetDifferences` |
| Sgdk.LDDefaults | src/sgdk.js:156-162 | no contract of its own: the Release linker preset; stated by `Sgdk.DebugPresetDifferences` |
| Sgdk.LDDefaultsDebug | src/sgdk.js:165-171 | no contract of its own: the Debug linker preset; stated by `Sgdk.DebugPresetDifferences` |
| Sgdk.BuildConfigDefaults | src/sgdk.js:420-425 | no contract of its own: Release then Debug; stated by `Sgdk.DebugPresetDifferences` |
| Sgdk.DebugPresetDifferences | src/sgdk.js:420-425 | Release and Debug in that order; Debug differs from Release only in adding the define `_DEBUG` and the flag `-g3` to the compiler, with `-O1` moved last and the other flags in order, and in adding `_DEBUG` to the assembler; every other key, include path `inc` among them, is equal, neither compiler preset names `base_sdk` or `cc_path`, and the linker presets are identical |
| Sgdk.MapDefine | src/sgdk.js:101 | a define renders as an argument starting with `-D` |
| Sgdk.ParseMapDefine | src/sgdk.js:101 | a rendered define reads back as the same symbol and value, when the symbol has no `=` |
| Sgdk.ParseAllDefines | src/sgdk.js:115 | the rendered list of defines reads back as the list |
| Sgdk.MapDefines | src/sgdk.js:115 | one rendered argument per define; `Sgdk.ParseAllDefines` reads the list back |
| Sgdk.GetDefines | src/sgdk.js:114-116 | `getDefines` succeeds exactly when the defines key is present |
| Sgdk.DefinesReachCompiler | src/sgdk.js:114-116 | `getDefines` splits into one argument per define, in order, each reading back as its define |
| Sgdk.GetFlags | src/sgdk.js:118-120 | `getFlags` succeeds exactly when the flags key is present |
| Sgdk.FlagsReachCompiler | src/sgdk.js:118-120 | `getFlags` yields the flags' own arguments, in order |
| Sgdk.GetIncludes | src/sgdk.js:110-112 | as written, succeeds exactly when the include-path list is present and empty |
| Sgdk.PresetIncludesThrow | src/sgdk.js:110-112 | with either preset, `getIncludes` throws a TypeError |
| Sgdk.GetIncludesBound | src/sgdk.js:108-112 | the intended `getIncludes` succeeds exactly when the include-path list is present and is either empty (giving `""`) or comes with a base path |
| Sgdk.IncludesBoundExtendsWritten | src/sgdk.js:110-112 | wherever `getIncludes` as written succeeds, the intended version gives the same result |
| Sgdk.IncludeArgs | src/sgdk.js:108 | one `-I"<path>"` option per include path |
| Sgdk.IncludesReachCompiler | src/sgdk.js:108-112 | with the intended `getIncludes`, an empty list passes no argument, and otherwise each include path reaches the compiler as its own argument, in order |
| Sgdk.MapInputFilenameToOutput | src/sgdk.js:381-383 | the output name ends in `.o`, and is just `.o` for a name without a dot |
| Sgdk.ReplacesLastExtension | src/sgdk.js:399-401 | only the last extension is replaced: `stem.ext` gives `stem.o` whatever the stem holds |
| Sgdk.OutputNameIsFixedPoint | src/sgdk.js:381-383 | an output name maps to itself |
| Sgdk.OutputNameExamples | src/sgdk.js:381-383 | `main.c` gives `main.o`, `a.b.s` gives `a.b.o`, `Makefile` gives `.o` |
| Sgdk.CompileCommand | src/sgdk.js:213 | the shell sees the compiler, the flags, the defines, the include options, `-c` and the input, `-o` and the output, in that order |
| Sgdk.AssembleCommand | src/sgdk.js:264 | the shell sees the assembler, `-o` and the output, then the input |
| Sgdk.LinkCommand | src/sgdk.js:320 | the shell sees the linker, `-T` and the script, the flags, `-o` and the output, then every input in order |
| Sgdk.CompileArguments | src/sgdk.js:211-221 | compiling one file passes exactly the configured flags, one `-D` argument per define, the include options, `-c` and the input, `-o` and the output |
| Sgdk.PresetsCompileCleanly | src/sgdk.js:63-81 | both compiler presets have single-argument flags and plain defines; Debug renders `-D_DEBUG` and Release no define |

## Findings

| source | as written | input that shows it | evidently intended | confidence | as-written member | corrected member |
|---|---|---|---|---|---|---|
| src/sgdk.js:110-112 | `include_paths.map(this.mapIncludePath)` passes the method without its receiver. In a class body `this` is then undefined, so `this.options` throws a TypeError | `new CCOptions()` (include paths `["inc"]`), then `getIncludes()`. With the bare presets, `CCLauncher.compile` throws earlier, in `getCCPath()` (line 214), because neither preset has `base_sdk` or `cc_path`. Once both keys are supplied, `compile` throws here | each include path joined to the SDK base path and rendered `-I"<path>"`, joined with spaces | not executed | Sgdk.PresetIncludesThrow | Sgdk.IncludesReachCompiler |

## Left out

- Process launching: `child_process.exec` and the `on_exit`, `on_stderr` and `on_stdout` handlers (src/sgdk.js:211-246, 262-294, 318-351). They are external processes with empty handlers. The command strings are modelled as pure functions of their parts.
- The tool and SDK paths: `getCCPath`, `getASPath` and `getLDPath` (src/sgdk.js:93-95, 146-151, 183-188). They call `path.join` and read the editor configuration. The command builders take the tool path as a string; `GetIncludesBound` takes path joining as a function parameter.
- `LDOptions.getFlags` (src/sgdk.js:190-192) reads the undefined `this.flags` and always throws. `LDLauncher.link` (src/sgdk.js:322) reads `linker_file` from the wrapper instead of its options. `LinkCommand` therefore takes the linker script and the flags as strings.
- The `output_file_paths` getters of `CFileConfig` and `SFileConfig` (src/sgdk.js:378-380, 396-398) read undefined fields. Only `map_input_filename_to_output` is modelled. The C and assembler versions are textually identical, so one function models both.
- `FixedLengthString.emit` (src/rom_header_editor.js:29-31) calls an unbound `trimPadString` and always fails. The static `trimPadString` is modelled instead.
- `ProjectCompiler` with its dependency graph, `mapFileToCompiler` (src/sgdk.js:441-461) and `ASLauncher.listDependencies` (src/sgdk.js:296-300): an external graph library, an empty method and an unfinished file read.
- The clock: the copyright year is a parameter of the `RomHeader` constructor instead of `new Date().getFullYear()`.
- Numbers are integers in this model. Non-integral or non-numeric field values, and `>> 0` on them, are not modelled.
- Js.NumberToString: renders every integer in plain decimal. JavaScript switches to exponent form (`"1e+21"`) from 10^21 up; a year never gets there.
- Strings are sequences of Dafny `char`, one per Unicode scalar value. JavaScript holds a character outside the Basic Multilingual Plane as two code units, so `charCodeAt` sees two positions, each clamped to 255. The model sees one `char`, so every later byte of that field sits one position earlier than the code writes it. Lone surrogates cannot be represented at all.
- RomHeaderEditor.RoundTrip: holds when the characters within each field's width, and the pad's first character, are Latin-1. A character above 255 is stored as 255 and does not read back.
- A define whose `value` key is present but `undefined` renders `=undefined` in the source. Here a value is either absent or a string.
- An override that sets a key to `undefined` explicitly replaces the default in `Object.assign`. Here a key is either absent or holds a value of its declared type.
- `ShellWords.Words` splits at spaces only. Shell quoting and escapes (the quotes around include paths, for one) are not interpreted.
- The command templates go through the `string-format` package. Only its plain `{name}` substitution is modelled, with every value a string.
- `src/emu.js`, `src/main.js`, `src/tile_editor.js` and `types/rom_header_editor.d.ts` are not part of this model. They are editor UI, a WebSocket server, command registration and type declarations.
