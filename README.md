# go-set-me-up configuration loading, modelled in Dafny

This project models the core of go-set-me-up, a Go library that fills a configuration struct from several sources in turn. The modelled parts:

- **Loader and errors.** `pkg.Load` defaults the load mode, calls every source once in order, wraps each failure with the source's index and name, and aggregates them (modules `Loader`, `Errors`). The error constructors are modelled with their messages, sentinels, `errors.Is`/`errors.As` and `Unwrap` behaviour.
- **Shared source utilities** (`pkg/source/sourceutil/common.go`, module `Sourceutil`). This covers the mode defaulting and the assignment policy `ShouldAssign`, the target check, and the assignment ladders `AssignFromString`/`AssignFromAny`. It also covers path building and the comma-list normalisation. The four flag-driven name conversions are one engine in module `Naming`.
- **The casting registry** (`internal/typecast`). The `Caster` class keeps its per-type cache of the first supporting option (module `TypecastCaster`). The options themselves are modelled too: bool, string, int, uint, byte slice and byte array, complex, int slice and array, string slice, and text unmarshaler (modules `TypecastScalars`, `TypecastBytes`, `TypecastComplex`, `TypecastLists`, `TypecastText`). `strconv.ParseInt`/`ParseUint`/`ParseBool` are modelled concretely in module `Strconv`.
- **The four sources.** The environment source (`EnvSource`), the dictionary source (`DictSource`), the command-line flags source (`FlagsSource`, including its argument parser) and the JSON file source (`JsonFileSource`). Each source's `Load` is a class method that walks the target struct field by field. It is proved against a pure function describing the same walk, and the properties of each source are lemmas about that function.

Go's reflection is replaced by a closed type datatype `Reflect.Ty` and a value datatype `Reflect.Value` (module `Reflect`), with `AssignableTo` and `ConvertibleTo` written out. The parts of the runtime that are not modelled are parameters gathered in `Host.Runtime`:

- float parsing and the float option's cast;
- conversions that involve floating point or re-encode strings;
- user `UnmarshalText` bodies and the cast options a caller appends;
- Unicode character classes and case mapping outside ASCII.

Reading the process environment, the command-line arguments and the JSON file are also parameters: the environment as a list of `KEY=VALUE` strings, the arguments as a list of strings, and the file as a `Decoding` outcome.

The sources report errors in two different ways:

- The environment and dictionary sources report a bad target with a plain error built from the reason and join their field errors with `errors.Join`.
- The flags source returns `InvalidTargetError` and wraps failures in `AggregatedLoadFailedError`. The JSON file source calls the `setup` package's versions of these helpers, which the model takes to be the same (see "Left out").

In `ModeOverride` a field whose source has no value takes its default only while it is still zero (pkg/source/sourceutil/common.go:50 and pkg/source/env/env_source.go:188 both test `IsZero`). A non-zero field is therefore never overwritten by a default.

## Model

| member | source | states |
|---|---|---|
| TypecastScalars.StringCast | internal/typecast/string.go:14-16 | the string option never fails: the result is the raw text without surrounding white space, held at the target type |
| TypecastScalars.StringCastExamples | internal/typecast/string.go:14-16 | only leading and trailing white space goes: interior blanks stay, and empty text stays empty |
| TypecastScalars.BoolCast | internal/typecast/bool.go:15-21 | succeeds exactly when the trimmed text is one of `strconv.ParseBool`'s spellings, with true exactly for the true spellings; otherwise a parse failure carrying the target, the untrimmed text and `ParseBool`'s syntax error on the trimmed text |
| TypecastScalars.BoolCastPadded | internal/typecast/bool.go:15-21 | white space around a boolean word is ignored |
| TypecastScalars.BoolCastSpellings | internal/typecast/bool.go:15-21 | all-upper-case `TRUE` is accepted but mixed case is not |
| TypecastScalars.BoolCastRejects | internal/typecast/bool.go:15-21 | a word such as `yes` fails with the `ParseBool` syntax error |
| TypecastScalars.IntCast | internal/typecast/int.go:16-22 | succeeds exactly when the trimmed text is a signed decimal within the target's bit size, with that value; a failure carries the target, the untrimmed text and a `ParseInt` error naming the trimmed text |
| TypecastScalars.UintCast | internal/typecast/uint.go:16-23 | succeeds exactly when the trimmed text is unsigned digits within the target's bit size; a failure carries a `ParseUint` error naming the trimmed text |
| TypecastScalars.IntCastRoundTrip | internal/typecast/int.go:16-22 | the decimal text of any integer in range, padded with white space, casts back to that integer |
| TypecastScalars.UintCastRoundTrip | internal/typecast/uint.go:16-23 | the decimal text of any natural number in range, padded with white space, casts back to it |
| TypecastScalars.IntCastOfDecimal | internal/typecast/int.go:16-22 | the bare decimal text of an in-range integer casts back to it |
| TypecastScalars.SignedExtremeCasts | internal/typecast/int.go:16-22 | the largest and the smallest value of every signed target are accepted from their decimal text |
| TypecastScalars.UnsignedExtremeCast | internal/typecast/uint.go:16-23 | the largest value of every unsigned target is accepted from its decimal text |
| TypecastScalars.Int8Bounds | internal/typecast/int.go:16-22 | for an `int8` target, 127 and a padded -128 are accepted and 128 is refused |
| TypecastScalars.UnsignedRejectsSign | internal/typecast/uint.go:16-23 | a minus sign is refused for an unsigned target |
| TypecastBytes.ByteSliceCast | internal/typecast/bytes.go:13-15 | the result is a non-nil `[]byte` holding the UTF-8 encoding of the untrimmed text, byte for byte |
| TypecastBytes.ByteSliceOfAscii | internal/typecast/bytes.go:13-15 | ASCII text, white space included, gives one byte per character, each equal to the character's code |
| TypecastBytes.ConvertByte | internal/typecast/bytes.go:32 | converting a byte to any type of kind `uint8` keeps its value |
| TypecastBytes.ByteArrayCast | internal/typecast/bytes.go:23-36 | the array has the target's length; its first positions hold the text's bytes as far as both reach, and the positions past the text are zero |
| TypecastBytes.CopyBytes | internal/typecast/bytes.go:26-33 | the copy loop stores byte `j` at every position both the array and the bytes reach and leaves every later position alone |
| TypecastBytes.NewZeroArray | internal/typecast/bytes.go:25 | a new array of the target's length is all zero elements |
| TypecastText.TextCast | internal/typecast/text_unmarshaler.go:16-40 | a type with neither receiver is refused with `ErrUnsupportedType` without consulting the decoder; otherwise the cast succeeds exactly when the decoder does. A value receiver wins and decodes into a copy, so its success returns the zero value of the type; with only a pointer receiver the result is a new pointer to the decoded value. A failure is the decoder's error wrapped as a parse failure with the target and the untrimmed text, and unwraps to it |
| TypecastText.TextSupportsCapability | internal/typecast/text_unmarshaler.go:12-14 | the option supports a type exactly when the type or a pointer to it has `UnmarshalText` |
| TypecastComplex.TextsReassemble | internal/typecast/complex.go:39-68 | the real part, the imaginary part and the unit put back together give the text; the imaginary part starts at a sign and holds no later split sign; without a sign the real part is "0" |
| TypecastComplex.ParseComplex | internal/typecast/complex.go:23-79 | empty text fails with `ErrEmptyValue`; otherwise the result is the two float parses or the first parse error |
| TypecastComplex.FindSplit | internal/typecast/complex.go:49-59 | the backward scan finds the last sign that is neither first nor an exponent's sign, or -1 |
| TypecastComplex.ParseComplexSteps | internal/typecast/complex.go:23-79 | the step-by-step parser computes `ParseComplex` |
| TypecastComplex.CutTexts | internal/typecast/complex.go:39-68 | the cutting steps give exactly the real and imaginary texts of `Texts` |
| TypecastComplex.CutUnit | internal/typecast/complex.go:39-47 | a final `i`/`I` is dropped, and otherwise everything from the last one on |
| TypecastComplex.ComplexCast | internal/typecast/complex.go:15-21 | a success is a value of the target type; a failure is a parse failure with the target and the untrimmed text; blank text fails with `ErrEmptyValue` |
| TypecastComplex.ComplexCastSteps | internal/typecast/complex.go:15-21 | running the step-by-step parser gives `ComplexCast` |
| TypecastComplex.ExponentSignIsNotASplit | internal/typecast/complex.go:50-58 | in "1e2+3.5i" the sign after the exponent stays in the real part |
| TypecastComplex.LeadingSignIsImaginary | internal/typecast/complex.go:62-64 | without a split sign the real part is "0" and a leading sign belongs to the imaginary part |
| TypecastComplex.NoUnitIsParsedWhole | internal/typecast/complex.go:31-37 | text without an imaginary unit goes to the float parser whole, as the real part |
| TypecastComplex.ParenthesesAreDropped | internal/typecast/complex.go:27-29 | one pair of enclosing parentheses is dropped before the text is split |
| TypecastLists.Tokens | internal/typecast/int_slice.go:20 | splitting at commas always gives at least one token, the empty text included |
| TypecastLists.IntTokens | internal/typecast/int_slice.go:23-24 | `strconv.ParseInt` with bit size 0 on a trimmed token succeeds exactly on integer tokens, with their value, and otherwise names itself and the trimmed token |
| TypecastLists.ParseToken | internal/typecast/int_slice.go:23-27 | parsing one token gives its value exactly when it is an integer token, and otherwise its `ParseInt` error |
| TypecastLists.FirstBad | internal/typecast/int_slice.go:22-29 | the position of the first token that is not an integer token; every token before it is one |
| TypecastLists.IntSliceCast | internal/typecast/int_slice.go:15-35 | blank text gives an empty non-nil slice; a success is a non-nil slice of the target type; a failure carries the target and the untrimmed text |
| TypecastLists.IntSliceCastAccepts | internal/typecast/int_slice.go:15-35 | non-blank text casts exactly when every token is an integer token, and the slice then holds their values in order |
| TypecastLists.IntSliceCastRejects | internal/typecast/int_slice.go:22-27 | a failure carries `ParseInt`'s error for the first token that is not an integer token |
| TypecastLists.ParseEach | internal/typecast/int_slice.go:21-29 | the parse loop succeeds exactly when no token is bad, with the tokens' values, and otherwise stops at the first bad token with its error |
| TypecastLists.ConvertEach | internal/typecast/int_slice.go:30-33 | the conversion loop fills a new slice with each value at the element type |
| TypecastLists.IntSliceCastSteps | internal/typecast/int_slice.go:15-35 | the two loops compute `IntSliceCast` |
| TypecastLists.DecimalIsIntToken | internal/typecast/int_slice.go:23-24 | the decimal text of an `int` is a comma-free integer token of that value, with no white space around it |
| TypecastLists.JoinedIntTokens | internal/typecast/int_slice.go:16-24 | decimal texts joined with commas split back into the same texts |
| TypecastLists.IntSliceRoundTrip | internal/typecast/int_slice.go:15-35 | integers written in decimal and joined with commas cast back to the same integers, in order |
| TypecastLists.IntItems | internal/typecast/int_array.go:23-33 | the array holds the parsed values first and zeros after them, at the array's length |
| TypecastLists.IntArrayCast | internal/typecast/int_array.go:15-35 | blank text gives the zero array; a success is an array of the target type and length; a failure carries the target and the untrimmed text |
| TypecastLists.IntArrayCastMeaning | internal/typecast/int_array.go:15-35 | non-blank text casts exactly when the first `min(N, tokens)` tokens are integer tokens, whatever follows; their values fill the first positions, the rest are zero; otherwise the error is the first bad leading token's |
| TypecastLists.LeadingSetMeaning | internal/typecast/int_array.go:23-30 | the loop over the leading tokens succeeds exactly when they all parse, and then keeps the array's length and tail |
| TypecastLists.SetLeading | internal/typecast/int_array.go:23-30 | the first loop, while both the array and the tokens last, computes `LeadingSet` |
| TypecastLists.LeadingSetStep | internal/typecast/int_array.go:24-29 | a round that parses its token stores the value at its position and keeps the rest |
| TypecastLists.LeadingSetStop | internal/typecast/int_array.go:25-27 | a round whose token does not parse ends the loop with that token's error |
| TypecastLists.SetToken | internal/typecast/int_array.go:24-29 | one round parses the token at position `i` and stores its value there |
| TypecastLists.IntArrayCastSteps | internal/typecast/int_array.go:15-35 | the zero array, the loop over the leading tokens and the zeroing loop compute `IntArrayCast` |
| TypecastLists.IntArrayCastByLeading | internal/typecast/int_array.go:20-30 | for non-blank text, the cast is the first loop's verdict on the zero array |
| TypecastLists.LeadingThenZeros | internal/typecast/int_array.go:31-33 | after both loops the array holds the leading values and then zeros |
| TypecastLists.ZeroFrom | internal/typecast/int_array.go:31-33 | the zeroing loop sets every position from the token count on to zero and keeps the others |
| TypecastLists.StringSliceCast | internal/typecast/string_slice.go:14-28 | never fails; blank text gives an empty non-nil slice; otherwise one trimmed element per token, empty tokens included |
| TypecastLists.TrimEach | internal/typecast/string_slice.go:20-22 | the first loop trims every token where it is |
| TypecastLists.FillStrings | internal/typecast/string_slice.go:23-26 | the second loop stores each token, at the element type, in a new slice |
| TypecastLists.StringSliceCastSteps | internal/typecast/string_slice.go:14-28 | the two loops compute `StringSliceCast` |
| TypecastLists.StringSliceJoin | internal/typecast/string_slice.go:14-28 | when no token is padded, joining the elements with commas gives back the trimmed text |
| TypecastLists.StringSliceRoundTrip | internal/typecast/string_slice.go:14-28 | pieces without commas or surrounding blanks, joined with commas, come back as the elements, empty pieces included |
| TypecastCaster.RunOption | internal/typecast/caster.go:64 | running an option's own steps (the step-by-step list and complex parsers, the byte-array loop) gives that option's `Cast` result |
| TypecastCaster.FirstSupporting | internal/typecast/caster.go:84-90 | the position of the option the loop stops at: it supports the type and no earlier option does, or the end of the list |
| TypecastCaster.Select | internal/typecast/caster.go:84-90 | a chosen option supports the type |
| TypecastCaster.Adjust | internal/typecast/caster.go:100-102 | a result assignable to the target, or not convertible to it, is kept; otherwise it is converted to the target type |
| TypecastCaster.Caster.constructor | internal/typecast/caster.go:23-42 | the built-in options in their fixed order, then the caller's, and an empty cache |
| TypecastCaster.Caster.FindOption | internal/typecast/caster.go:84-90 | the loop over the options returns the option `Select` chooses |
| TypecastCaster.Caster.Resolve | internal/typecast/caster.go:77-95 | the option is the chosen one; the cache gains an entry only for an uncached type that some option supports |
| TypecastCaster.Caster.Cast | internal/typecast/caster.go:44-107 | the result and the new cache are those of `CastResult` and `CacheAfter` on the cache before the call, and the cache stays valid |
| TypecastCaster.Caster.CastIntoPointer | internal/typecast/caster.go:63-73 | the element's cast error is returned unchanged; a success is a new pointer to the element's result, converted to the element type where needed |
| TypecastCaster.FirstSupportingIsUnique | internal/typecast/caster.go:85-90 | an option that supports the type with no supporting option before it is the one the loop stops at |
| TypecastCaster.SelectIsFirst | internal/typecast/caster.go:84-90 | the chosen option is, in both directions, the first supporting one in list order; no choice means no option supports the type |
| TypecastCaster.AppendedComeLast | internal/typecast/caster.go:36 | options the caller appends are consulted only when no built-in option supports the type |
| TypecastCaster.CacheOnlyGrows | internal/typecast/caster.go:92-95 | a cast only adds cache entries, never changes an existing one, and keeps every entry equal to the option chosen for its type |
| TypecastCaster.RecordKeepsValid | internal/typecast/caster.go:93-95 | recording the chosen option keeps the cache valid |
| TypecastCaster.CachedEvenOnFailure | internal/typecast/caster.go:92-99 | the type is cached before its option runs, so it stays cached when the cast fails, and the option's error is returned as it is |
| TypecastCaster.UnsupportedLeavesCache | internal/typecast/caster.go:106 | with no supporting option the result is `ErrUnsupportedType` of the target and the cache does not change |
| TypecastCaster.PointerResultWraps | internal/typecast/caster.go:63-73 | the pointer path succeeds exactly when the element cast does, returns its error unchanged, and otherwise yields a pointer to a value of the element type |
| TypecastCaster.PointerPathIgnoresCache | internal/typecast/caster.go:45-75 | a pointer target whose element type some option supports is served by that option, whatever the cache holds |
| TypecastCaster.CacheHitSkipsAdjust | internal/typecast/caster.go:77-82 | a cache hit returns the option's result without the conversion a first resolution applies |
| TypecastCaster.FlagUsesBoolOption | internal/typecast/caster.go:24-34 | for `type Flag bool` the built-in option chosen is the boolean one |
| TypecastCaster.FlagBoolCast | internal/typecast/bool.go:15-21 | the boolean option yields a plain `bool` whatever the target |
| TypecastCaster.FlagFirstCast | internal/typecast/caster.go:92-103 | the first cast to `Flag` caches the boolean option and returns a value of type `Flag` |
| TypecastCaster.FlagAdjust | internal/typecast/caster.go:100-102 | a plain `bool` is not assignable to `Flag` but converts to it, keeping its value |
| TypecastCaster.FlagCachedCast | internal/typecast/caster.go:77-82 | once `Flag` is cached, a cast to it returns a plain `bool`, not a `Flag` |
| TypecastCaster.IntSliceUnsupportedByBuiltins | internal/typecast/caster.go:23-42 | a caster with only the built-in options refuses `[]int` with `ErrUnsupportedType` |
| TypecastCaster.NoBuiltinForIntSlice | internal/typecast/caster.go:24-34 | no built-in option supports `[]int` |
| TypecastCaster.UnnamedSliceNotText | internal/typecast/text_unmarshaler.go:12-14 | an unnamed slice type and a pointer to it have no `UnmarshalText` |
| TypecastCaster.IntSliceSupportedWhenAppended | internal/typecast/caster.go:36 | with the `[]int` option appended, the same caster accepts `[]int` |
| Errors.TypecastMessages | internal/typecast/errors.go:8-30 | the texts of `ErrEmptyValue`, `ErrUnsupportedType` and `ErrParseFailed`, the latter naming the type, the quoted raw value and the cause |
| Errors.Join | pkg/loader.go:36-37 | joining a list of errors gives nil exactly for the empty list, and otherwise an error that unwraps to the list, in order |
| Errors.LoaderSourceFailedErrorWraps | pkg/errors.go:15-32 | the wrapper matches `ErrLoaderSourceFailed` and the original error under `errors.Is`, `errors.As` finds the typed error, and its text is the sentinel's followed by the index, the name and the original's text |
| Errors.AggregatedLoadFailedErrorWraps | pkg/errors.go:34-49 | the wrapper matches `ErrLoadAggregatedFailed` and the aggregated error, `errors.As` finds the typed error, and its text repeats the sentinel's words before the aggregate's |
| Errors.InvalidTargetErrorWraps | pkg/errors.go:51-62 | the wrapper matches `ErrInvalidTarget`, `errors.As` finds the typed error, and its text carries the reason |
| Errors.EnvFieldFailedErrorWraps | pkg/errors.go:72-75 | the wrapper matches `ErrSourceFieldFailed` and the original error, `errors.As` finds a field error of source `env`, and its text reads `env KEY=VALUE field PATH: cause` |
| Errors.DictFieldFailedErrorWraps | pkg/errors.go:77-80 | the same for source `dict`, whose text reads `dict field PATH: cause` |
| Errors.FlagsFieldFailedErrorWraps | pkg/errors.go:82-85 | the same for source `flags`; the `field PATH` part of the text is dropped when the path is empty |
| Errors.JSONFieldFailedErrorWraps | pkg/errors.go:87-90 | the same for source `json`, whose text reads `json field PATH: cause` |
| Errors.SourceFieldFailedFallback | pkg/errors.go:92-106 | a field error of any source other than env, flags and dict is rendered in the json form |
| Errors.TypedErrorsUnwrap | pkg/errors.go:30-110 | each typed error unwraps to the error it carries, while the `%w: %w` wrapper has no single-error `Unwrap` |
| Loader.FailureOf | pkg/loader.go:30-33 | a source contributes nothing when it succeeds and exactly its error, tagged with its index and name, when it fails |
| Loader.Outcome | pkg/loader.go:36-41 | `Load` returns nil exactly when nothing was collected, and otherwise the aggregated error over the joined failures |
| Loader.EffectiveMode | pkg/loader.go:24-26 | mode 0 becomes `ModeOverride`; any other mode is passed on unchanged |
| Loader.Loader.constructor | pkg/loader.go:19-21 | the loader holds the given sources, in order |
| Loader.Loader.Load | pkg/loader.go:23-42 | the loop runs every source once, in order, each on what the one before it left, and returns the aggregate of the failures |
| Loader.FailuresInOrder | pkg/loader.go:29-34 | each source adds at most one failure, after those collected before, and the failures name increasing source indices |
| Loader.NoFailuresIffAllSucceed | pkg/loader.go:29-34 | nothing is collected exactly when every source succeeds |
| Loader.NilIffAllSucceed | pkg/loader.go:23-42 | `Load` returns nil exactly when every source succeeds |
| Loader.FailureReported | pkg/loader.go:29-34 | a failing source's error, tagged with its index and name, reaches the final list, and `errors.Is` finds both the error and `ErrLoaderSourceFailed` |
| Loader.ZeroModeIsOverride | pkg/loader.go:24-26 | with mode 0 every source runs exactly as when `ModeOverride` is asked for |
| Loader.AggregateUnwraps | pkg/loader.go:36-39 | the returned error matches `ErrLoadAggregatedFailed`, `errors.As` finds the aggregate, and the aggregate unwraps to the failures in order |
| Naming.ConvertName | pkg/source/sourceutil/common.go:278-344 | the scanning loop with its four flags computes the converted name of each of the four conventions (`ConvertToUpperSnake` and `ConvertToEnvVar` of the shared package, `convertToEnvVar` of the environment source, `convertToUpperSnake` of the dictionary source) |
| Naming.WrittenIsNotUnderscore | pkg/source/sourceutil/common.go:300-331 | a letter or digit is never written as `_` |
| Naming.AppendLetter | pkg/source/sourceutil/common.go:309-311 | writing a character other than `_` keeps the shape of the text built so far |
| Naming.StepKeepsShape | pkg/source/sourceutil/common.go:286-338 | one loop step keeps the shape: no leading `_`, no two in a row, and the flags agree with the text |
| Naming.GapKeepsShape | pkg/source/sourceutil/common.go:288-295 | a separator writes at most one `_`, and none before the first character written |
| Naming.ScanShaped | pkg/source/sourceutil/common.go:286-338 | the rest of the scan keeps the shape of the state it starts from |
| Naming.SnakeNameShape | pkg/source/sourceutil/common.go:278-344 | a converted name never starts or ends with `_` and never holds two `_` in a row |
| Naming.AsciiScanChars | pkg/source/env/env_source.go:279-337 | a scan that classifies by ASCII ranges adds only upper-case ASCII letters, digits and `_` |
| Naming.AsciiSnakeChars | pkg/source/env/env_source.go:269-345 | the ASCII conversions produce only upper-case ASCII letters, digits and `_` |
| Naming.AsciiStepAgrees | pkg/source/sourceutil/common.go:377-435 | on ASCII characters the four conventions take the same step, although two classify by Unicode and one also treats `_` as a separator |
| Naming.AsciiScanAgrees | pkg/source/sourceutil/common.go:377-435 | on ASCII text the four conventions scan alike |
| Naming.AsciiNamesAgree | pkg/source/dict/dict_source.go:238-300 | on ASCII text all four conversions give the same name |
| Naming.EnvScanSkipsNonAscii | pkg/source/env/env_source.go:331-336 | the environment source's scan writes nothing for characters outside ASCII |
| Naming.EnvDropsNonAscii | pkg/source/env/env_source.go:269-345 | a name written only in non-ASCII letters converts to the empty key |
| Naming.EnvUpperStep | pkg/source/env/env_source.go:296-311 | an upper-case letter is copied, preceded by `_` after a lower-case letter or digit, or after an upper-case letter when a lower-case one follows, unless `_` was just written or nothing was |
| Naming.EnvLowerStep | pkg/source/env/env_source.go:313-320 | a lower-case letter is written upper case |
| Naming.AcronymExample | pkg/source/env/env_source.go:296-311 | "HTTPServer" gives "HTTP_SERVER": an acronym ends before the capital that starts a word |
| Naming.AcronymHead | pkg/source/env/env_source.go:296-311 | the upper-case run "HTTP" is copied without a break |
| Naming.AcronymTail | pkg/source/env/env_source.go:296-320 | after "HTTP_S" the lower-case word "erver" is written upper case |
| Naming.SeparatorExample | pkg/source/env/env_source.go:282-290 | "--a--b--" gives "A_B": separator runs collapse to one `_` and vanish at both ends |
| Sourceutil.DefaultMode | pkg/source/sourceutil/common.go:14-20 | the mode a source uses is the loader's effective mode: never 0, and 0 reads as `ModeOverride` |
| Sourceutil.DefaultModeIdempotent | pkg/source/sourceutil/common.go:14-20 | defaulting a mode twice is defaulting it once, so a source may default what the loader already defaulted |
| Sourceutil.EnsureTargetStruct | pkg/source/sourceutil/common.go:25-37 | succeeds exactly for a non-nil pointer to a struct, returning the struct; a nil or non-pointer target and a pointer to a non-struct each fail with their own invalid-target reason |
| Sourceutil.InvalidTargetReads | pkg/source/sourceutil/common.go:28 | an invalid-target error matches `ErrInvalidTarget`, `errors.As` finds the typed error with the reason, and its text names the reason |
| Sourceutil.TargetErrorsReadAsInvalidTarget | pkg/source/sourceutil/common.go:27-34 | both target failures read as invalid-target errors with the reason that fits the target |
| Sourceutil.NothingToAssign | pkg/source/sourceutil/common.go:45-67 | with neither a value nor a default no mode writes the field, and a non-zero field is written only in `ModeOverride` with a value present |
| Sourceutil.NilAssignableZeroIsNil | pkg/source/sourceutil/common.go:262-269 | the zero value of a pointer, slice, map, func, interface or channel type is nil |
| Sourceutil.NilInto | pkg/source/sourceutil/common.go:118-124 | nil assigns exactly into a nil-assignable kind |
| Sourceutil.AssignFromString | pkg/source/sourceutil/common.go:74-108 | casts the text at the field's type, or at its element type for a pointer field, and takes the result through the exact-type, pointer and conversion rungs; the caster's cache changes as one cast changes it |
| Sourceutil.AssignFromAny | pkg/source/sourceutil/common.go:116-200 | nil, a string cast through the caster, or a typed value laddered into the field; only the string path touches the caster's cache |
| Sourceutil.AssignFromStringPath | pkg/source/sourceutil/common.go:127-174 | the string path of `AssignFromAny`, which unwraps a pointer result also by conversion |
| Sourceutil.CastLaddersKeepFieldType | pkg/source/sourceutil/common.go:74-108 | every value a ladder stores has the field's type, and the only failure it makes itself is `ErrUnsupportedType` of the field |
| Sourceutil.AnyLaddersKeepFieldType | pkg/source/sourceutil/common.go:116-200 | whatever `AssignFromAny` stores has the field's type, and outside the string path its only failure is `ErrUnsupportedType` of the field |
| Sourceutil.CastErrorPassesThrough | pkg/source/sourceutil/common.go:77-79 | a cast error reaches the caller unchanged, in both assigners |
| Sourceutil.NilZeroesNilAssignable | pkg/source/sourceutil/common.go:118-124 | nil and a typed nil pointer have the same effect: a nil-assignable field becomes its zero value, any other field is unsupported |
| Sourceutil.ExactTypeIsStored | pkg/source/sourceutil/common.go:176-179 | a value of exactly the field's type is stored as it is |
| Sourceutil.ElementIsWrapped | pkg/source/sourceutil/common.go:219-230 | a pointer field given a value of its element type gets a fresh pointer to that value |
| Sourceutil.PointerIsUnwrapped | pkg/source/sourceutil/common.go:240-245 | a field that is not a pointer, given a non-nil pointer to its type, gets the pointee |
| Sourceutil.IntegerIsConverted | pkg/source/sourceutil/common.go:210-217 | an integer of another integer type is converted, wrapping to the field's width as Go's conversion does |
| Sourceutil.MakePath | pkg/source/sourceutil/common.go:271-276 | the field name alone at the top level, otherwise the prefix, a dot and the name |
| Sourceutil.PathIsDotted | pkg/source/sourceutil/common.go:271-276 | the path of a nested field is its field names joined by dots |
| Sourceutil.PathSplitsBack | pkg/source/sourceutil/common.go:271-276 | a path splits at its dots back into the field names it was made from |
| Sourceutil.TrimmedTokens | pkg/source/sourceutil/common.go:353-356 | one token per piece between delimiters, each trimmed |
| Sourceutil.NormalizeDelimited | pkg/source/sourceutil/common.go:346-358 | the loop that trims each token in place and joins with commas computes `Normalized`: the input itself when the delimiter is empty or absent |
| Sourceutil.NormalizeCommasIdempotent | pkg/source/sourceutil/common.go:346-358 | normalising a comma list twice is normalising it once |
| Sourceutil.ResolveDelimiter | pkg/source/sourceutil/common.go:360-365 | a field's own delimiter wins; otherwise the source's |
| Sourceutil.ConvertToUpperSnake | pkg/source/sourceutil/common.go:278-344 | the converted name holds only upper-case ASCII letters, digits and `_`, never starts or ends with `_` and never has two in a row |
| Sourceutil.ConvertToEnvVar | pkg/source/sourceutil/common.go:367-443 | the same shape whenever upper-casing never yields `_`, and on ASCII names the same result as the ASCII conversions |
| EnvSource.EnvVarIsEnvName | pkg/source/env/env_source.go:269-345 | every converted name is a well-formed key: upper-case ASCII letters, digits and single inner `_` |
| EnvSource.ConvertEnvVar | pkg/source/env/env_source.go:269-345 | the scanning loop returns the converted name, which is a well-formed key |
| EnvSource.SplitPairParts | pkg/source/env/env_source.go:71-78 | an entry is kept exactly when it has an `=` that is not its first character, and then reassembles from a non-empty key free of `=` and the value after the first `=` |
| EnvSource.GetEnv | pkg/source/env/env_source.go:67-82 | the loop over the environment entries builds `EnvMap` |
| EnvSource.EnvFromKeys | pkg/source/env/env_source.go:71-79 | a key is in the map exactly when some well-formed entry names it |
| EnvSource.UnnamedKeyKept | pkg/source/env/env_source.go:71-79 | a key that no later entry names keeps its value |
| EnvSource.LastEntryWins | pkg/source/env/env_source.go:71-79 | when several entries name a key, the last one gives its value |
| EnvSource.BuildKey | pkg/source/env/env_source.go:170-180 | the leaf alone without segments; the segments joined by `_` for an empty leaf; otherwise segments and leaf joined by `_` |
| EnvSource.JoinTwoEnvNames | pkg/source/env/env_source.go:179 | two well-formed non-empty keys joined by `_` make a well-formed key |
| EnvSource.JoinEnvNames | pkg/source/env/env_source.go:176-179 | any number of well-formed non-empty keys joined by `_` make a well-formed key |
| EnvSource.BuildKeyIsEnvName | pkg/source/env/env_source.go:170-180 | with well-formed segments and leaf, the key built is well formed |
| EnvSource.LeafKeyIsEnvName | pkg/source/env/env_source.go:148-149 | the key a tagged field reads is always well formed, whatever its tag |
| EnvSource.TokensJoinBack | pkg/source/env/env_source.go:210-216 | the token list is never empty and joins back into the value |
| EnvSource.AppendIfNotEmpty | pkg/source/env/env_source.go:106-111 | an empty name leaves the segments as they are; any other is appended |
| EnvSource.SegmentsStayEnvNames | pkg/source/env/env_source.go:113-133 | the segments `loadStruct` passes on stay non-empty well-formed keys, so every key it builds is one |
| EnvSource.LeafPlan | pkg/source/env/env_source.go:143-168 | a tagged field is written exactly when the shared assignment policy says so, with the variable's value when set and otherwise the non-empty default |
| EnvSource.PresentBeatsDefault | pkg/source/env/env_source.go:150-163 | a set variable, even an empty one, beats the default in either mode that writes; the default counts only for an absent variable and a zero field |
| EnvSource.NoConversionForValues | pkg/source/env/env_source.go:253-266 | for a field that is not a pointer, a cast result of another type is not converted: it fails with `ErrUnsupportedType` of the field |
| EnvSource.UnwrittenStep | pkg/source/env/env_source.go:88-101 | a field the loop never writes keeps its value through its step |
| EnvSource.WalkKeepsField | pkg/source/env/env_source.go:86-103 | the walk keeps the fields already visited and every never-written field |
| EnvSource.WalkAppendsErrors | pkg/source/env/env_source.go:164-166 | the walk only appends to the errors collected so far |
| EnvSource.UnwrittenFieldsKept | pkg/source/env/env_source.go:84-104 | unexported fields, fields tagged `env:"-"` and untagged fields that are not structs come out of `loadStruct` unchanged |
| EnvSource.NilStructPointerAllocated | pkg/source/env/env_source.go:128-137 | an untagged nil pointer to a struct is allocated and walked into as the zero struct, under the field's segment |
| EnvSource.LoadErrIffFieldErrors | pkg/source/env/env_source.go:51-64 | on a valid target, `Load` fails exactly when some field failed, its error unwraps to every field error in order, and the target then points to the walked struct |
| EnvSource.Source.constructor | pkg/source/env/env_source.go:19-34 | the prefix is converted to a well-formed key, the delimiter defaults to ",", and the caster is a new one with only the built-in options |
| EnvSource.Source.SetFieldValue | pkg/source/env/env_source.go:218-267 | one cast at the field's cast target, its result taken through `setFieldValue`'s ladders, and the cache changed as that cast changes it |
| EnvSource.Source.ProcessLeafField | pkg/source/env/env_source.go:143-168 | computes `LeafStep`: the new field, the errors added and the new cache |
| EnvSource.Source.AssignLeaf | pkg/source/env/env_source.go:164-166 | computes `AssignStep`: a failed write leaves the field and adds its error |
| EnvSource.Source.LoadField | pkg/source/env/env_source.go:86-103 | computes `FieldStep` for one field |
| EnvSource.Source.LoadStruct | pkg/source/env/env_source.go:84-104 | the loop over the fields computes `LoadStructValue` |
| EnvSource.Source.Load | pkg/source/env/env_source.go:36-65 | computes `LoadOutcome` for the given environment |
| DictSource.LowerString | pkg/source/dict/dict_source.go:86 | lower-casing keeps the length and lowers each character |
| DictSource.LookupValue | pkg/source/dict/dict_source.go:81-94 | the field name's entry if there is one, else the lower snake name's, else the upper snake name's; nothing exactly when none of the three is a key |
| DictSource.LookupFindsOneOfThree | pkg/source/dict/dict_source.go:81-94 | a value found is the entry of one of the three names |
| DictSource.LowerSnakeBeatsUpperSnake | pkg/source/dict/dict_source.go:87-92 | when both snake names are keys and the field name is not, the lower snake entry is the one found |
| DictSource.DictPolicyIsPresentPolicy | pkg/source/dict/dict_source.go:104-112 | the dictionary's policy is the shared one for a present value: Override always writes, FillMissing only a zero field |
| DictSource.DictLadderIsShared | pkg/source/dict/dict_source.go:194-219 | for a non-pointer field, looking through a pointer first gives the same result as the shared ladder, which tries the exact type first |
| DictSource.DictAgreesWithAssignFromAny | pkg/source/dict/dict_source.go:114-220 | `setFieldValue` agrees with the shared `AssignFromAny` except for a string into a non-pointer field |
| DictSource.DictSetKeepsFieldType | pkg/source/dict/dict_source.go:114-220 | every success stores a value of the field's type; a failure is the cast's error or `ErrUnsupportedType` of the field |
| DictSource.NumbersAreConverted | pkg/source/dict/dict_source.go:215-218 | a number of another convertible type is converted, not refused |
| DictSource.FieldError | pkg/source/dict/dict_source.go:76 | the field error unwraps to exactly its cause |
| DictSource.FieldErrorReads | pkg/source/dict/dict_source.go:76 | a field error reads "field PATH (type T): cause" |
| DictSource.FieldErrorIsCause | pkg/source/dict/dict_source.go:76 | `errors.Is` finds through a field error everything it finds through its cause |
| DictSource.UntouchedStep | pkg/source/dict/dict_source.go:50-70 | an unexported field, a field none of whose names is a key, and a field with a map it cannot take keep their value, add no error and leave the cache alone |
| DictSource.WalkKeepsField | pkg/source/dict/dict_source.go:48-78 | the walk keeps the fields already visited and every untouched field |
| DictSource.MissingKeysLeaveFields | pkg/source/dict/dict_source.go:46-79 | fields whose key is missing, unexported fields and fields with an ignored map come out of `loadStruct` unchanged |
| DictSource.WalkAppendsErrors | pkg/source/dict/dict_source.go:75-77 | the walk only appends to the errors collected so far |
| DictSource.FailedWriteIsWrapped | pkg/source/dict/dict_source.go:75-77 | a failed write leaves the field and adds exactly one error: the cause wrapped with the field's dotted path and type |
| DictSource.MapGoesNested | pkg/source/dict/dict_source.go:58-71 | a nested map found for an exported field takes the nested branch whatever the mode, never the write |
| DictSource.NilStructPointerAllocated | pkg/source/dict/dict_source.go:63-68 | a nil pointer to a struct given a nested map is allocated and walked into as the zero struct |
| DictSource.LoadErrIffFieldErrors | pkg/source/dict/dict_source.go:26-44 | a bad target fails; on a valid one, `Load` fails exactly when some field failed, and its error unwraps to every field error in order |
| DictSource.Source.constructor | pkg/source/dict/dict_source.go:19-24 | a nil map reads as an empty one, and the caster is a new one with only the built-in options |
| DictSource.Source.SetFieldValue | pkg/source/dict/dict_source.go:114-220 | computes `DictSetResult` on the cast the text gets; only a string changes the caster's cache |
| DictSource.Source.SetFromString | pkg/source/dict/dict_source.go:124-152 | the string branch: one cast, then the same ladder as `AssignFromString` |
| DictSource.Source.AssignField | pkg/source/dict/dict_source.go:72-77 | computes `AssignStep`: the policy, the write and the wrapped error |
| DictSource.Source.LoadField | pkg/source/dict/dict_source.go:49-77 | computes `FieldStep` for one field |
| DictSource.Source.LoadNested | pkg/source/dict/dict_source.go:58-71 | computes `NestedStep` for a nested map |
| DictSource.Source.LoadStruct | pkg/source/dict/dict_source.go:46-79 | the loop over the fields computes `LoadStructValue` |
| DictSource.Source.Load | pkg/source/dict/dict_source.go:26-44 | computes `LoadOutcome` |
| FlagsSource.TakeValue | pkg/source/flags/flags_source.go:68-75 | a flag without `=` sets exactly its own name, and the index moves on by one or two |
| FlagsSource.LongFlag | pkg/source/flags/flags_source.go:44-76 | a token after "--" always moves the index forward, never past the arguments |
| FlagsSource.ShortFlag | pkg/source/flags/flags_source.go:77-98 | a token after a single "-" always moves the index forward, never past the arguments |
| FlagsSource.ParseStep | pkg/source/flags/flags_source.go:42-100 | every iteration of the loop moves the index forward, so the loop ends |
| FlagsSource.ParseArguments | pkg/source/flags/flags_source.go:39-102 | the loop builds `Parse` of the arguments |
| FlagsSource.ParseLongFlag | pkg/source/flags/flags_source.go:44-76 | the loop body for a long flag computes `LongFlag` |
| FlagsSource.ParseShortFlag | pkg/source/flags/flags_source.go:77-98 | the loop body for a short flag computes `ShortFlag` |
| FlagsSource.LongFlagWithValue | pkg/source/flags/flags_source.go:50-60 | "--k=v" sets k to v, unless k starts with "no-" |
| FlagsSource.NegatedFlag | pkg/source/flags/flags_source.go:53-66 | "--no-k" and "--no-k=anything" both set k to "false" |
| FlagsSource.FlagTakesNextArgument | pkg/source/flags/flags_source.go:68-75 | "--k" or "-k" takes the next argument as its value unless there is none or it starts with "-", and then k is set to "" |
| FlagsSource.ShortFlagWithValue | pkg/source/flags/flags_source.go:83-89 | "-k=v" sets k to v; a single dash has no "no-" handling |
| FlagsSource.IgnoredTokens | pkg/source/flags/flags_source.go:44-99 | "--", "-" and tokens without a leading dash leave the map as it is |
| FlagsSource.StepIgnoresLater | pkg/source/flags/flags_source.go:68-72 | a step never reads past the next argument and never takes a token starting with "-" as a value |
| FlagsSource.ParseExtends | pkg/source/flags/flags_source.go:42-100 | parsing arguments followed by a flag token continues from where the arguments left the map |
| FlagsSource.LastFlagWins | pkg/source/flags/flags_source.go:39-102 | a trailing "--k=v" overrides whatever the earlier arguments gave k |
| FlagsSource.LookupFlag | pkg/source/flags/flags_source.go:137-142 | a value found is the argument under the name reported; nothing is found exactly when the long name is absent and the short one is empty or absent; the short name is reported only when it was used |
| FlagsSource.LongBeatsShort | pkg/source/flags/flags_source.go:137-142 | the long name wins; the short one is used only in its absence |
| FlagsSource.EmptyValueError | pkg/source/flags/flags_source.go:161-162 | the empty-value error unwraps to a parse failure of the field's type carrying `ErrEmptyValue` |
| FlagsSource.LeafPlan | pkg/source/flags/flags_source.go:143-171 | a field is skipped exactly when the shared policy says not to write; an empty value is refused exactly for a non-boolean field that would be written; a bare boolean flag reads "true"; an absent flag writes the non-empty default |
| FlagsSource.EmptyValueRule | pkg/source/flags/flags_source.go:149-164 | an empty value sets a boolean field to true; for any other field it is refused with an error that matches `ErrEmptyValue`, holds the parse failure and reads "name=: parse failed ..." |
| FlagsSource.RejectLeavesField | pkg/source/flags/flags_source.go:161-163 | a refused empty value leaves the field and the cache as they were and adds one error matching `ErrEmptyValue` |
| FlagsSource.UnwrittenStep | pkg/source/flags/flags_source.go:108-126 | a field the loop never writes keeps its value through its step |
| FlagsSource.WalkKeepsField | pkg/source/flags/flags_source.go:106-127 | the walk keeps the fields already visited and every never-written field |
| FlagsSource.WalkAppendsErrors | pkg/source/flags/flags_source.go:106-127 | the walk only appends to the errors collected so far |
| FlagsSource.UnwrittenFieldsKept | pkg/source/flags/flags_source.go:104-128 | unexported fields and fields that are neither flags nor structs come out of `loadStruct` unchanged |
| FlagsSource.NilStructPointerAllocated | pkg/source/flags/flags_source.go:120-125 | a nil pointer to a struct is allocated and walked into as the zero struct, with the same arguments |
| FlagsSource.DashTaggedStructIsWalked | pkg/source/flags/flags_source.go:131-133 | a struct field tagged `flag:"-"` is not a leaf, so it is still walked into |
| FlagsSource.LoadError | pkg/source/flags/flags_source.go:33-36 | `Load` reports an error exactly when something was collected |
| FlagsSource.LoadErrIffFieldErrors | pkg/source/flags/flags_source.go:23-37 | a bad target returns its invalid-target error and changes nothing; otherwise the target points to the walked struct, and `Load` fails exactly when some field failed, with an error matching `ErrLoadAggregatedFailed` and every field error |
| FlagsSource.AggregateMatchesEach | pkg/source/flags/flags_source.go:34 | the aggregated error matches its sentinel and each error collected |
| FlagsSource.Source.constructor | pkg/source/flags/flags_source.go:19-21 | a source with a new caster holding only the built-in options |
| FlagsSource.Source.ProcessLeafField | pkg/source/flags/flags_source.go:130-181 | a field without a usable `flag` tag is not a leaf and nothing changes; otherwise computes `LeafStep` |
| FlagsSource.Source.DecideLeaf | pkg/source/flags/flags_source.go:131-171 | the lookup and the decision compute `LeafPlan` on the value found, and report the flag name used |
| FlagsSource.Source.AssignLeaf | pkg/source/flags/flags_source.go:172-179 | computes `AssignStep`: a failed assignment leaves the field and adds the flags field error |
| FlagsSource.Source.LoadField | pkg/source/flags/flags_source.go:107-126 | computes `FieldStep` for one field |
| FlagsSource.Source.LoadStruct | pkg/source/flags/flags_source.go:104-128 | the loop over the fields computes `LoadStructValue` |
| FlagsSource.Source.Load | pkg/source/flags/flags_source.go:23-37 | computes `LoadOutcome` for the given arguments |
| JsonFileSource.TagNameIsPrefix | setup/source/json-file/json_file_source.go:115-123 | the name is the part of the tag before its first comma; it is empty exactly for "", "-" and a tag starting with a comma |
| JsonFileSource.TagNameExamples | setup/source/json-file/json_file_source.go:115-123 | options after the name do not change it; a lone leading comma gives no name, and "-," names the key "-" |
| JsonFileSource.CopyLeafRungs | setup/source/json-file/json_file_source.go:94-111 | a shadow of the field's type is copied; one of the element type is put in a new pointer; a nil pointer to the field's type gives the zero value; any other shadow leaves the field alone |
| JsonFileSource.CopyFields | setup/source/json-file/json_file_source.go:49-112 | the loop keeps the number of fields |
| JsonFileSource.NamedLeafCopy | setup/source/json-file/json_file_source.go:54-93 | a named leaf field is decided by the assignment policy on its key's presence alone |
| JsonFileSource.UntouchedFieldCopy | setup/source/json-file/json_file_source.go:51-93 | an unexported field, a field without a JSON name, and a leaf whose key is absent keep their value in every mode |
| JsonFileSource.CopyKeepsField | setup/source/json-file/json_file_source.go:49-112 | the copy keeps the fields already visited and every untouched field |
| JsonFileSource.UntouchedFieldsKept | setup/source/json-file/json_file_source.go:47-113 | untouched fields come out of `copyStructValues` as they went in |
| JsonFileSource.CopyWritesField | setup/source/json-file/json_file_source.go:49-112 | the value at each position is that field's own copy, whatever the other fields do |
| JsonFileSource.CopyIsFieldwise | setup/source/json-file/json_file_source.go:47-113 | each field of the copied struct is that field's copy from the target and the decoded shadow |
| JsonFileSource.OverrideCopiesPresentLeaves | setup/source/json-file/json_file_source.go:91-96 | in Override mode a named leaf takes the decoded value exactly when its key is present, and otherwise keeps its value |
| JsonFileSource.FillMissingKeepsSetLeaves | setup/source/json-file/json_file_source.go:91-93 | in FillMissing mode a leaf that already holds a non-zero value keeps it |
| JsonFileSource.NestedStructAlwaysWalked | setup/source/json-file/json_file_source.go:74-77 | a nested struct is walked into whether or not its key is present, with the members of its own object, none when the key is absent |
| JsonFileSource.NilStructPointerAllocated | setup/source/json-file/json_file_source.go:78-89 | a nil pointer to a struct is allocated even when its key is absent, and filled from the shadow's struct or a zero one |
| JsonFileSource.AbsentObjectKeepsLeaves | setup/source/json-file/json_file_source.go:59-70 | below an absent key nothing is present, so every leaf of a struct walked with no object keeps its value |
| JsonFileSource.LoadResultRules | setup/source/json-file/json_file_source.go:22-45 | `Load` succeeds exactly for a valid target and a file that reads and decodes; a bad target returns its invalid-target error; a read or decode failure changes nothing and is wrapped as an aggregated load failure |
| JsonFileSource.Source.constructor | setup/source/json-file/json_file_source.go:18-20 | the mode is defaulted when the source is made, so it is never 0 |
| JsonFileSource.Source.CopyField | setup/source/json-file/json_file_source.go:50-111 | one iteration of the loop computes `FieldCopy` |
| JsonFileSource.Source.CopyNamedField | setup/source/json-file/json_file_source.go:59-111 | the rest of an iteration for a named field computes `NamedCopy` |
| JsonFileSource.Source.CopyByKind | setup/source/json-file/json_file_source.go:73-111 | the choice between a nested struct, a pointer to one and a leaf computes `KindCopy` |
| JsonFileSource.Source.CopyStructPointer | setup/source/json-file/json_file_source.go:78-89 | a pointer to a struct is allocated when nil and walked into alongside the shadow's struct, a zero one when the shadow is nil |
| JsonFileSource.Source.LookupMember | setup/source/json-file/json_file_source.go:59-70 | the key's presence and the members of the object under it, when it decodes as one |
| JsonFileSource.Source.CopyLeafField | setup/source/json-file/json_file_source.go:91-111 | computes `LeafCopy`: skipped unless the policy allows, then the copy rungs |
| JsonFileSource.Source.CopyStructValues | setup/source/json-file/json_file_source.go:47-113 | the loop over the fields computes `CopyStructValue` |
| JsonFileSource.Source.Load | setup/source/json-file/json_file_source.go:22-45 | computes `LoadOutcome` for what reading and decoding the file gave |

## Left out

- Go reflection: types and values are the closed datatypes of module `Reflect`. `AssignableTo` ignores channel directions and `ConvertibleTo` ignores struct-tag erasure. Conversions that involve floating point or re-encode strings are a `Host.Runtime` parameter. Pointers are owned boxes, so aliasing between two pointers to the same struct is not modelled.
- In-place mutation through `reflect.Value.Set`: each walk returns the new target value instead of writing through a pointer; the order of the writes is the field order, as in the source.
- The `sync.RWMutex` around the caster's cache (internal/typecast/caster.go:11, 48-57, 77-95): the cache is modelled sequentially.
- internal/typecast/float.go: floating-point parsing and the infinity saturation rule are not modelled; the float option and the `strconv.ParseFloat` calls of complex.go are a `Host.Runtime` parse function, and only the splitting of complex literals is modelled.
- `os.Environ`, `os.Args[1:]`, `os.ReadFile` and `encoding/json` decoding: these become parameters (a list of `KEY=VALUE` strings, an argument list, and the `JsonFileSource.Decoding` outcome with the decoded root object and shadow struct).
- The `unicode` tables behind the name conversions and `strings.ToLower`: `IsUpper`, `IsLower`, `IsDigit`, `ToUpper` and `ToLower` are exact on ASCII and `Host.Runtime` parameters beyond it.
- User `UnmarshalText` bodies: an abstract decode function that may fail.
- Panics: a nil pointer's element is read as the zero value; the panics that `reflect.Value.Set` would raise on a mismatched cast result (internal/typecast/caster.go:68-73 and the slice and array casts) are the preconditions `TypecastCaster.PointerPathSafe`, `Sourceutil.CastsSafe` and `Sourceutil.DeepCastsSafe`.
- setup/typecaster.go: a thin adapter that drops nil options and forwards to the caster.
- The environment source's `splitIntoTokens` and delimiter resolution are not called by its `Load`; they are modelled only as functions with their own lemmas.
- Dictionary raw values: a value is nil, a nested `map[string]any` or one of the values `Reflect.Value` can express (`DictSource.Raw`); maps of other key types and Go values outside `Reflect.Value` are not modelled.
- The `prefix` and `errs` parameters of the JSON file source's `copyStructValues` are never read or written by it and are dropped.
- `pkg.ErrUnsupportedType` (returned by pkg/source/sourceutil/common.go:91-186) is not defined in the modelled files; it is modelled by the same constructor as the typecast package's `ErrUnsupportedType` (`Errors.UnsupportedType`), so the two are not told apart.
- The source name that `pkg.Load` formats with `%T`: it is the `name` field of `Loader.Source`, given by the caller.
- The rendering of nested error lists by `fmt` and `errors.Join` beyond the fixed message prefixes: errors are kept structurally as lists.
- Self-referential struct types, such as a struct with a field of type pointer to itself: `Reflect.Ty` is a finite datatype and cannot express them. On such a target the environment source (pkg/source/env/env_source.go:102, 127-137), the flags source (pkg/source/flags/flags_source.go:120-125) and the JSON file source (setup/source/json-file/json_file_source.go:78-88, even when no key is present) allocate the nil pointer and walk into it again without end, so their `Load` never returns. The dictionary source stops, because it walks into a field only where the dictionary nests. The walks of the model terminate on the size of the field's type, so this non-termination is not captured.
- The `setup` package helpers used by setup/source/json-file/json_file_source.go (`setup.LoadMode`, `setup.NewAggregatedLoadFailedError` and `setup/source/sourceutil`) are not part of this model. They are assumed to behave like their `pkg` counterparts, which the JSON file source model uses: `Loader.LoadMode`, `Errors.NewAggregatedLoadFailedError` and module `Sourceutil`.
