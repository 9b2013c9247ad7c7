# String processor, modelled in Dafny

This project models `StringProcessor`, the one class with behaviour in the
repository. It normalises a batch of optional strings and returns the set of
cleaned, non-empty results.

- **Per-string pipeline.** `ProcessSingleString` turns a null input into null.
  Otherwise it runs four stages:
  1. `RemoveRepeatingChars` collapses every maximal run of equal adjacent
     characters to one character. Comparison is exact and case-sensitive.
  2. Every `'4'` and `'_'` is deleted.
  3. Every `'$'` becomes `'£'`.
  4. The result is cut to `MaxInputLength` = 15 characters.

  The result is appended character by character to an initially empty builder.
- **Batch operation.** `ProcessStrings` maps the pipeline over the input
  collection. It drops null and empty results and gathers the rest into a
  set, which merges equal results.

Files:

- `wrappers.dfy`: the `Option` type that stands for a nullable string.
- `string_processor.dfy`, module `StringProcessor`, covers the class:
  - each stage is a function on `string` (`seq<char>`);
  - `Pipeline` composes the stages for a present string;
  - `ProcessedValue` lifts `Pipeline` to optional strings;
  - `ProcessSingleString` is a method whose builder loop is proved equal to
    `ProcessedValue`;
  - `ProcessStrings` is a set comprehension.
- `string_processor_scenarios.dfy`, module `StringProcessorScenarios`, holds
  the unit tests' situations as lemmas.

The specification of "one character per maximal run" does not reuse the
collapse. It goes through run decompositions: `Expand(heads, counts)` writes
`heads[i]` `counts[i]` times. A decomposition is maximal when every count is
positive and neighbouring heads differ. `CollapseIsOnePerRun` proves that the
collapse returns `heads` exactly when such a decomposition of the input
exists.

The final output can have two equal neighbours, because filtering and
substitution run after the collapse. The test at
`Ldc.DevTest.Strings.Implementation.Tests.Unit/StringProcessorTests.cs:115-116`
expects `"A  in  str"`, with two adjacent spaces.
`PipelineMayHaveAdjacentDuplicates` and `PipelineNotIdempotent` prove this,
while `CollapseIdempotent` and `DropRemovedIdempotent` show that each stage on
its own is idempotent.

The unit tests write `'Ł'` where the code writes `'£'`. The model uses the
code's `'£'` (`Pound`).

The scenario lemmas state every concrete input of the unit tests. Each input
is split into pieces that meet at run boundaries. Each piece is either
evaluated directly or has no runs and nothing to remove.
`SubstitutedSplice2` to `SubstitutedSplice5` join the processed pieces.

## Model

| member | source | states |
|---|---|---|
| `StringProcessor.RemoveRepeatingChars` | Ldc.DevTest.Strings.Implementation/StringProcessor.cs:38-48 | an input of length at most 1 is returned unchanged; a non-empty result keeps the input's first and last characters; the result is no longer than the input and has no two equal neighbours |
| `StringProcessor.CollapseEmitsRunHeads` | Ldc.DevTest.Strings.Implementation/StringProcessor.cs:41-47 | the input is the collapse's characters each repeated a positive number of times (its run lengths), with neighbouring characters different |
| `StringProcessor.RunHeadsDetermineCollapse` | Ldc.DevTest.Strings.Implementation/StringProcessor.cs:41-47 | any split of the input into maximal runs lists exactly the characters the collapse returns |
| `StringProcessor.CollapseIsOnePerRun` | Ldc.DevTest.Strings.Implementation/StringProcessor.cs:38-48 | the collapse equals `heads` if and only if the input splits into maximal runs whose characters are `heads`, in order (one character per run) |
| `StringProcessor.CollapseKeepsCharacters` | Ldc.DevTest.Strings.Implementation/StringProcessor.cs:38-48 | the collapse only deletes characters: it is a subsequence of the input and contains exactly the input's distinct characters |
| `StringProcessor.CollapseFixpoint` | Ldc.DevTest.Strings.Implementation/StringProcessor.cs:38-48 | a string is unchanged by the collapse if and only if it has no two equal neighbours |
| `StringProcessor.CollapseIdempotent` | Ldc.DevTest.Strings.Implementation/StringProcessor.cs:38-48 | collapsing twice gives the same as collapsing once |
| `StringProcessor.CollapseAppend` | Ldc.DevTest.Strings.Implementation/StringProcessor.cs:41-47 | when the last character of `x` differs from the first of `y`, collapsing `x + y` is collapsing `x` and `y` separately |
| `StringProcessor.DropRemovedChars` | Ldc.DevTest.Strings.Implementation/StringProcessor.cs:29 | no `'4'` or `'_'` is left, and the result is a subsequence of the input (order kept) |
| `StringProcessor.DropRemovedKeepsOthers` | Ldc.DevTest.Strings.Implementation/StringProcessor.cs:29 | every other character occurs in the result exactly as often as in the input |
| `StringProcessor.DropRemovedFixpoint` | Ldc.DevTest.Strings.Implementation/StringProcessor.cs:29 | a string passes the filter unchanged if and only if it contains no `'4'` and no `'_'` |
| `StringProcessor.DropRemovedIdempotent` | Ldc.DevTest.Strings.Implementation/StringProcessor.cs:29 | filtering twice gives the same as filtering once |
| `StringProcessor.DropRemovedAppend` | Ldc.DevTest.Strings.Implementation/StringProcessor.cs:29 | the filter distributes over concatenation (each character is judged alone) |
| `StringProcessor.ReplaceDollars` | Ldc.DevTest.Strings.Implementation/StringProcessor.cs:30 | same length as the input; position by position, `'$'` becomes `'£'` and every other character is kept |
| `StringProcessor.ReplaceDollarsIdempotent` | Ldc.DevTest.Strings.Implementation/StringProcessor.cs:30 | substituting twice gives the same as substituting once |
| `StringProcessor.ReplaceDollarsAppend` | Ldc.DevTest.Strings.Implementation/StringProcessor.cs:30 | the substitution distributes over concatenation |
| `StringProcessor.TakeFirst` | Ldc.DevTest.Strings.Implementation/StringProcessor.cs:31 | the result is a prefix of the input of length min(n, input length); a short enough input is kept whole |
| `StringProcessor.Pipeline` | Ldc.DevTest.Strings.Implementation/StringProcessor.cs:28-31 | the output has at most `MaxInputLength` characters (15, the constant declared at line 11) and no `'4'`, `'_'` or `'$'`; it is a prefix of the filtered and substituted sequence, all of it when that sequence has at most 15 characters and exactly 15 characters of it otherwise |
| `StringProcessor.ProcessSingleString` | Ldc.DevTest.Strings.Implementation/StringProcessor.cs:21-36 | null gives null and a present string gives a present result; that result is the first 15 characters of substitute(filter(collapse(s))), built by appending the characters one at a time |
| `StringProcessor.PipelineKeepsOrder` | Ldc.DevTest.Strings.Implementation/StringProcessor.cs:28-30 | the surviving characters appear in the input in the same order; the substitution step keeps their count |
| `StringProcessor.SubstitutedAppend` | Ldc.DevTest.Strings.Implementation/StringProcessor.cs:28-30 | before truncation, the pipeline treats the two sides of a run boundary independently |
| `StringProcessor.PipelineMayHaveAdjacentDuplicates` | Ldc.DevTest.Strings.Implementation/StringProcessor.cs:28-31 | `"a4a"` gives `"aa"`: the final output can have two equal neighbours |
| `StringProcessor.PipelineNotIdempotent` | Ldc.DevTest.Strings.Implementation/StringProcessor.cs:28-31 | processing `"a4a"` twice differs from processing it once |
| `StringProcessor.ProcessStrings` | Ldc.DevTest.Strings.Implementation/StringProcessor.cs:13-18 | every element is non-empty and is the processed value of some input; every non-null, non-empty processed input is an element |
| `StringProcessor.ProcessStringsOutputsClean` | Ldc.DevTest.Strings.Implementation/StringProcessor.cs:13-18 | every element has between 1 and 15 characters and no `'4'`, `'_'` or `'$'` |
| `StringProcessor.ProcessStringsSize` | Ldc.DevTest.Strings.Implementation/StringProcessor.cs:14-17 | the set has at most as many elements as there are non-null inputs |
| `StringProcessor.ProcessStringsIgnoresOrder` | Ldc.DevTest.Strings.Implementation/StringProcessor.cs:14-17 | two collections with the same entries give the same set, whatever their order or repetitions |
| `StringProcessor.ProcessStringsMergesEqualResults` | Ldc.DevTest.Strings.Implementation/StringProcessor.cs:14-17 | two inputs with the same non-empty processed value give a one-element set |
| `StringProcessorScenarios.EmptyCollectionGivesEmptySet` | Ldc.DevTest.Strings.Implementation.Tests.Unit/StringProcessorTests.cs:24-35 | an empty collection gives the empty set |
| `StringProcessorScenarios.RunsCollapseCaseSensitively` | Ldc.DevTest.Strings.Implementation.Tests.Unit/StringProcessorTests.cs:61-85 | `"wwwWW"` gives `"wW"`: runs collapse, and `'w'` and `'W'` are different |
| `StringProcessorScenarios.DollarRunBecomesOnePound` | Ldc.DevTest.Strings.Implementation.Tests.Unit/StringProcessorTests.cs:88-109 | `"$$$"` gives one `'£'` |
| `StringProcessorScenarios.OnlyRemovedCharsGiveEmpty` | Ldc.DevTest.Strings.Implementation.Tests.Unit/StringProcessorTests.cs:178-195 | `"4444"` and `"4_4"` process to the empty string |
| `StringProcessorScenarios.EmptyStringStaysPresent` | Ldc.DevTest.Strings.Implementation/StringProcessor.cs:23-35 | `""` processes to a present empty string, and the batch drops it |
| `StringProcessorScenarios.NullEntryIsDropped` | Ldc.DevTest.Strings.Implementation.Tests.Unit/StringProcessorTests.cs:158-175 | adding a null entry anywhere in a collection does not change the result |
| `StringProcessorScenarios.EmptyResultIsDropped` | Ldc.DevTest.Strings.Implementation.Tests.Unit/StringProcessorTests.cs:178-195 | adding an entry that processes to the empty string does not change the result |
| `StringProcessorScenarios.BatchSplitsAndMerges` | Ldc.DevTest.Strings.Implementation/StringProcessor.cs:13-18 | processing a concatenation of collections gives the union of their results |
| `StringProcessorScenarios.CleanPieceUnchanged` | Ldc.DevTest.Strings.Implementation/StringProcessor.cs:28-30 | a string with no two equal neighbours and no `'4'`, `'_'` or `'$'` comes out of the stages before truncation unchanged |
| `StringProcessorScenarios.DollarPieceReplaced` | Ldc.DevTest.Strings.Implementation/StringProcessor.cs:28-30 | a string with no two equal neighbours and no `'4'` or `'_'` comes out of the stages before truncation with only its `'$'` replaced by `'£'` |
| `StringProcessorScenarios.SubstitutedSplice2` | Ldc.DevTest.Strings.Implementation/StringProcessor.cs:28-30 | two pieces that meet at a run boundary are processed independently before truncation |
| `StringProcessorScenarios.SubstitutedSplice3` | Ldc.DevTest.Strings.Implementation/StringProcessor.cs:28-30 | the same for three pieces |
| `StringProcessorScenarios.SubstitutedSplice4` | Ldc.DevTest.Strings.Implementation/StringProcessor.cs:28-30 | the same for four pieces |
| `StringProcessorScenarios.SubstitutedSplice5` | Ldc.DevTest.Strings.Implementation/StringProcessor.cs:28-30 | the same for five pieces |
| `StringProcessorScenarios.CutAtMaxLength` | Ldc.DevTest.Strings.Implementation/StringProcessor.cs:31 | when the stages before truncation produce more than 15 characters, the output is their first 15 |
| `StringProcessorScenarios.PairBatch` | Ldc.DevTest.Strings.Implementation/StringProcessor.cs:13-18 | two entries with non-empty results give the set of exactly those results |
| `StringProcessorScenarios.TripleBatch` | Ldc.DevTest.Strings.Implementation/StringProcessor.cs:13-18 | three entries with non-empty results give the set of exactly those results |
| `StringProcessorScenarios.NullsBatch` | Ldc.DevTest.Strings.Implementation/StringProcessor.cs:13-18 | null entries after each of two entries with non-empty results add nothing to the set |
| `StringProcessorScenarios.EmptiesBatch` | Ldc.DevTest.Strings.Implementation/StringProcessor.cs:13-18 | entries with empty results after each of two entries with non-empty results add nothing to the set |
| `StringProcessorScenarios.FoursInSentence` | Ldc.DevTest.Strings.Implementation.Tests.Unit/StringProcessorTests.cs:115-116 | `"A 4 in 4 str"` gives `"A  in  str"` |
| `StringProcessorScenarios.FourRunsInSentence` | Ldc.DevTest.Strings.Implementation.Tests.Unit/StringProcessorTests.cs:118-119 | `"A-444-is-the-44"` gives `"A--is-the-"` |
| `StringProcessorScenarios.FoursRemoved` | Ldc.DevTest.Strings.Implementation.Tests.Unit/StringProcessorTests.cs:111-132 | the batch of both inputs gives exactly the two expected results |
| `StringProcessorScenarios.UnderscoresInSentence` | Ldc.DevTest.Strings.Implementation.Tests.Unit/StringProcessorTests.cs:138-139 | `"A _ in _ str"` gives `"A  in  str"` |
| `StringProcessorScenarios.UnderscoreRunsInSentence` | Ldc.DevTest.Strings.Implementation.Tests.Unit/StringProcessorTests.cs:141-142 | `"A-___-is-the-__"` gives `"A--is-the-"` |
| `StringProcessorScenarios.UnderscoresRemoved` | Ldc.DevTest.Strings.Implementation.Tests.Unit/StringProcessorTests.cs:134-155 | the batch of both inputs gives exactly the two expected results |
| `StringProcessorScenarios.DollarsInSentence` | Ldc.DevTest.Strings.Implementation.Tests.Unit/StringProcessorTests.cs:91-92 | `"A $ is $"` gives `"A £ is £"` |
| `StringProcessorScenarios.DollarRunInSentence` | Ldc.DevTest.Strings.Implementation.Tests.Unit/StringProcessorTests.cs:94-95 | `"This $$$ is the $"` gives `"This £ is the £"` |
| `StringProcessorScenarios.DollarsReplaced` | Ldc.DevTest.Strings.Implementation.Tests.Unit/StringProcessorTests.cs:87-109 | the batch of both inputs gives exactly the two expected results |
| `StringProcessorScenarios.ShortInputKept` | Ldc.DevTest.Strings.Implementation.Tests.Unit/StringProcessorTests.cs:41 | the first 14 characters of the first sample sentence, `"A 1238 (*%! A "`, are kept whole |
| `StringProcessorScenarios.MaxLengthInputKept` | Ldc.DevTest.Strings.Implementation.Tests.Unit/StringProcessorTests.cs:42 | the first 15 characters of the second sample sentence, `"B 56789 )-=+ B "`, are kept whole |
| `StringProcessorScenarios.LongInputCut` | Ldc.DevTest.Strings.Implementation.Tests.Unit/StringProcessorTests.cs:43-44 | the first 16 characters of the third sample sentence, `"C 93 )-=+ th1s i"`, lose the last one |
| `StringProcessorScenarios.LongInputsTruncated` | Ldc.DevTest.Strings.Implementation.Tests.Unit/StringProcessorTests.cs:37-58 | the batch of the three inputs gives exactly the three expected results |
| `StringProcessorScenarios.RunsInSentenceA` | Ldc.DevTest.Strings.Implementation.Tests.Unit/StringProcessorTests.cs:64-65 | `"AWWWwwwThis ppPPPP AA"` gives `"AWwThis pP A"` |
| `StringProcessorScenarios.RunsInSentenceB` | Ldc.DevTest.Strings.Implementation.Tests.Unit/StringProcessorTests.cs:67-68 | `"BzZZZe bbCCCC --+**"` gives `"BzZe bC -+*"` |
| `StringProcessorScenarios.NoRunsKept` | Ldc.DevTest.Strings.Implementation.Tests.Unit/StringProcessorTests.cs:70-71 | `"String C"` is kept whole |
| `StringProcessorScenarios.RunsCollapsed` | Ldc.DevTest.Strings.Implementation.Tests.Unit/StringProcessorTests.cs:60-85 | the batch of the three inputs gives exactly the three expected results |
| `StringProcessorScenarios.NullEntriesOmitted` | Ldc.DevTest.Strings.Implementation.Tests.Unit/StringProcessorTests.cs:157-175 | `"String1"`, null, `"String2"`, null gives exactly `"String1"` and `"String2"` |
| `StringProcessorScenarios.EmptyResultsOmitted` | Ldc.DevTest.Strings.Implementation.Tests.Unit/StringProcessorTests.cs:177-195 | `"String1"`, `""`, `"String2"`, `"4444"` gives exactly `"String1"` and `"String2"` |

## Left out

- `Ldc.DevTest.Strings.Contracts/IStringProcessor.cs` only declares the signature of `ProcessStrings`. It has no behaviour of its own, so it is not modelled.
- `StringBuilder`, LINQ laziness and `ToList` are not modelled. `ProcessSingleString` takes the selected characters as a value and appends them in a loop.
- The recursion depth of `RemoveRepeatingChars` (one stack frame per character, so very long inputs can exhaust the stack) is not modelled; the model's function is total.
- A null collection passed to `ProcessStrings` makes LINQ throw. The model always receives a sequence, possibly empty.
- .NET `char` is a UTF-16 code unit, while Dafny's `char` is a Unicode scalar value, so characters outside the Basic Multilingual Plane behave differently:
  - two equal adjacent non-BMP characters collapse to one in the model, but not in the source, whose neighbouring code units differ (high surrogate, then low surrogate);
  - `Take(15)` in the source counts UTF-16 code units and can split a surrogate pair, while the model's 15 counts scalar values, which can be up to 30 code units;
  - lone surrogates, which a .NET string can hold, cannot be represented in the model.
- `HashSet<string>` becomes `set<string>`: insertion order and hashing are not modelled.
