/**
 * The string processor: a per-string pipeline (collapse runs, drop '4' and
 * '_', turn '$' into '£', keep at most 15 characters) and a batch operation
 * that maps the pipeline over a collection, drops null and empty results and
 * gathers the rest into a set.
 */
module StringProcessor {
  import opened Wrappers

  /** Longest string a processed entry may have. */
  const MaxInputLength: nat := 15

  /** The pound sign that replaces every dollar sign. */
  const Pound: char := '£'

  // ---------------------------------------------------------------------------
  // Auxiliary notions used by the contracts
  // ---------------------------------------------------------------------------

  /** No two neighbouring characters of `s` are equal. */
  predicate NoAdjacentDuplicates(s: string) {
    forall i :: 0 <= i < |s| - 1 ==> s[i] != s[i + 1]
  }

  /** `r` can be obtained from `s` by deleting characters (order is kept). */
  predicate IsSubsequence(r: string, s: string) {
    if s == [] then r == []
    else (r != [] && r[0] == s[0] && IsSubsequence(r[1..], s[1..])) || IsSubsequence(r, s[1..])
  }

  /** Characters that the filtering stage deletes. */
  predicate IsRemoved(c: char) {
    c == '4' || c == '_'
  }

  /** Characters that never occur in a processed string. */
  predicate IsForbidden(c: char) {
    IsRemoved(c) || c == '$'
  }

  /** The `!string.IsNullOrEmpty` test of the batch operation. */
  predicate NotNullOrEmpty(o: Option<string>) {
    o.Some? && o.value != []
  }

  // ---------------------------------------------------------------------------
  // Stage 1: run collapse
  // ---------------------------------------------------------------------------

  /**
   * Drops the first character of every equal adjacent pair, so that each
   * maximal run of identical characters leaves exactly one character.
   */
  function RemoveRepeatingChars(s: string): (r: string)
    ensures |r| <= |s|
    ensures |s| <= 1 ==> r == s
    ensures |s| > 0 ==> |r| > 0 && r[0] == s[0] && r[|r| - 1] == s[|s| - 1]
    ensures NoAdjacentDuplicates(r)
  {
    if |s| <= 1 then s
    else if s[0] == s[1] then RemoveRepeatingChars(s[1..])
    else [s[0]] + RemoveRepeatingChars(s[1..])
  }

  /** `n` copies of `c`. */
  function Repeat(c: char, n: nat): (r: string)
    ensures |r| == n
    ensures forall i :: 0 <= i < n ==> r[i] == c
  {
    if n == 0 then [] else [c] + Repeat(c, n - 1)
  }

  /** The string made of `|heads|` runs: `heads[i]` repeated `counts[i]` times. */
  function Expand(heads: string, counts: seq<nat>): string
    requires |heads| == |counts|
  {
    if heads == [] then [] else Repeat(heads[0], counts[0]) + Expand(heads[1..], counts[1..])
  }

  /**
   * `heads` lists the maximal runs of `s` in order: every run is non-empty
   * and neighbouring runs hold different characters.
   */
  ghost predicate IsRunDecomposition(s: string, heads: string, counts: seq<nat>) {
    && |heads| == |counts|
    && (forall i :: 0 <= i < |counts| ==> counts[i] > 0)
    && NoAdjacentDuplicates(heads)
    && Expand(heads, counts) == s
  }

  /** The lengths of the maximal runs of `s`, left to right. */
  ghost function RunLengths(s: string): seq<nat>
  {
    if |s| <= 1 then (if s == [] then [] else [1])
    else if s[0] == s[1] then
      var rest := RunLengths(s[1..]);
      if rest == [] then [2] else [rest[0] + 1] + rest[1..]
    else [1] + RunLengths(s[1..])
  }

  /** Expanding a run in front of other runs. */
  lemma ExpandCons(c: char, n: nat, heads: string, counts: seq<nat>)
    requires |heads| == |counts|
    ensures Expand([c] + heads, [n] + counts) == Repeat(c, n) + Expand(heads, counts)
  {
    assert ([c] + heads)[1..] == heads;
    assert ([n] + counts)[1..] == counts;
  }

  /** Lengthening the first run by one adds one copy of its character in front. */
  lemma ExpandLongerFirstRun(heads: string, counts: seq<nat>)
    requires |heads| == |counts| && heads != []
    ensures Expand(heads, [counts[0] + 1] + counts[1..]) == [heads[0]] + Expand(heads, counts)
  {
    var longer := [counts[0] + 1] + counts[1..];
    assert longer[1..] == counts[1..];
    assert Repeat(heads[0], counts[0] + 1) == [heads[0]] + Repeat(heads[0], counts[0]);
  }

  /** A character equal to the first run's joins that run. */
  lemma DecompositionLongerFirstRun(s: string, heads: string, counts: seq<nat>)
    requires |s| > 1 && s[0] == s[1]
    requires IsRunDecomposition(s[1..], heads, counts)
    ensures heads != []
    ensures IsRunDecomposition(s, heads, [counts[0] + 1] + counts[1..])
  {
    assert s == [s[0]] + s[1..];
    ExpandLongerFirstRun(heads, counts);
  }

  /** A character different from the first run's starts a new run. */
  lemma DecompositionNewRun(s: string, heads: string, counts: seq<nat>)
    requires |s| > 1 && s[0] != s[1]
    requires IsRunDecomposition(s[1..], heads, counts)
    requires heads != [] && heads[0] == s[1]
    ensures IsRunDecomposition(s, [s[0]] + heads, [1] + counts)
  {
    assert s == [s[0]] + s[1..];
    ExpandCons(s[0], 1, heads, counts);
    assert Repeat(s[0], 1) == [s[0]];
  }

  /** The collapse of `s` lists the maximal runs of `s`, one character each. */
  lemma {:induction false} CollapseEmitsRunHeads(s: string)
    ensures IsRunDecomposition(s, RemoveRepeatingChars(s), RunLengths(s))
    decreases |s|
  {
    if |s| == 1 {
      ExpandCons(s[0], 1, [], []);
      assert [s[0]] + [] == s;
    } else if |s| > 1 {
      CollapseEmitsRunHeads(s[1..]);
      if s[0] == s[1] {
        DecompositionLongerFirstRun(s, RemoveRepeatingChars(s[1..]), RunLengths(s[1..]));
      } else {
        DecompositionNewRun(s, RemoveRepeatingChars(s[1..]), RunLengths(s[1..]));
      }
    }
  }

  /** Expanded runs start with the first run's character. */
  lemma ExpandStartsWithFirstHead(heads: string, counts: seq<nat>)
    requires |heads| == |counts| && heads != [] && counts[0] > 0
    ensures Expand(heads, counts) != [] && Expand(heads, counts)[0] == heads[0]
  {
    assert Repeat(heads[0], counts[0])[0] == heads[0];
  }

  /** Removing one character of a first run that has several leaves a decomposition of the rest. */
  lemma DecompositionShorterFirstRun(s: string, heads: string, counts: seq<nat>)
    requires IsRunDecomposition(s, heads, counts)
    requires heads != [] && counts[0] >= 2
    ensures |s| > 1 && s[0] == heads[0] && s[1] == heads[0]
    ensures IsRunDecomposition(s[1..], heads, [counts[0] - 1] + counts[1..])
  {
    var shorter := [counts[0] - 1] + counts[1..];
    assert [shorter[0] + 1] + shorter[1..] == counts;
    ExpandLongerFirstRun(heads, shorter);
    ExpandStartsWithFirstHead(heads, shorter);
  }

  /** Removing a first run of one character leaves a decomposition of the rest into the other runs. */
  lemma DecompositionWithoutFirstRun(s: string, heads: string, counts: seq<nat>)
    requires IsRunDecomposition(s, heads, counts)
    requires |heads| > 1 && counts[0] == 1
    ensures |s| > 1 && s[0] == heads[0] && s[1] == heads[1]
    ensures IsRunDecomposition(s[1..], heads[1..], counts[1..])
  {
    assert heads == [heads[0]] + heads[1..] && counts == [1] + counts[1..];
    ExpandCons(heads[0], 1, heads[1..], counts[1..]);
    assert Repeat(heads[0], 1) == [heads[0]];
    ExpandStartsWithFirstHead(heads[1..], counts[1..]);
  }

  /** Any decomposition of `s` into maximal runs is the one the collapse emits. */
  lemma {:induction false} RunHeadsDetermineCollapse(s: string, heads: string, counts: seq<nat>)
    requires IsRunDecomposition(s, heads, counts)
    ensures RemoveRepeatingChars(s) == heads
    decreases |s|
  {
    if heads != [] {
      if counts[0] >= 2 {
        DecompositionShorterFirstRun(s, heads, counts);
        RunHeadsDetermineCollapse(s[1..], heads, [counts[0] - 1] + counts[1..]);
      } else if |heads| == 1 {
        ExpandCons(heads[0], 1, [], []);
        assert heads == [heads[0]] + [] && counts == [1] + [];
        assert Repeat(heads[0], 1) == [heads[0]];
      } else {
        DecompositionWithoutFirstRun(s, heads, counts);
        RunHeadsDetermineCollapse(s[1..], heads[1..], counts[1..]);
        assert heads == [heads[0]] + heads[1..];
      }
    }
  }

  /** The collapse emits exactly one character per maximal run, in order. */
  lemma CollapseIsOnePerRun(s: string, heads: string)
    ensures RemoveRepeatingChars(s) == heads <==> exists counts :: IsRunDecomposition(s, heads, counts)
  {
    CollapseEmitsRunHeads(s);
    if exists counts :: IsRunDecomposition(s, heads, counts) {
      var counts :| IsRunDecomposition(s, heads, counts);
      RunHeadsDetermineCollapse(s, heads, counts);
    }
  }

  /** The collapse only deletes characters: it keeps the order of the rest and loses no distinct character. */
  lemma {:induction false} CollapseKeepsCharacters(s: string)
    ensures IsSubsequence(RemoveRepeatingChars(s), s)
    ensures forall c :: c in RemoveRepeatingChars(s) <==> c in s
  {
    if |s| > 1 {
      CollapseKeepsCharacters(s[1..]);
      assert s == [s[0]] + s[1..];
      if s[0] != s[1] {
        var r := RemoveRepeatingChars(s);
        assert r[1..] == RemoveRepeatingChars(s[1..]);
      }
    }
  }

  /** A string is left unchanged by the collapse exactly when it has no equal neighbours. */
  lemma {:induction false} CollapseFixpoint(s: string)
    ensures RemoveRepeatingChars(s) == s <==> NoAdjacentDuplicates(s)
  {
    if |s| > 1 && NoAdjacentDuplicates(s) {
      assert NoAdjacentDuplicates(s[1..]);
      CollapseFixpoint(s[1..]);
      assert s == [s[0]] + s[1..];
    }
  }

  /** Collapsing twice is collapsing once. */
  lemma {:induction false} CollapseIdempotent(s: string)
    ensures RemoveRepeatingChars(RemoveRepeatingChars(s)) == RemoveRepeatingChars(s)
  {
    CollapseFixpoint(RemoveRepeatingChars(s));
  }

  // ---------------------------------------------------------------------------
  // Stage 2: removal of '4' and '_'
  // ---------------------------------------------------------------------------

  /** Deletes every '4' and '_' and keeps the other characters in order. */
  function DropRemovedChars(s: string): (r: string)
    ensures forall i :: 0 <= i < |r| ==> !IsRemoved(r[i])
    ensures IsSubsequence(r, s)
  {
    if s == [] then []
    else
      assert s == [s[0]] + s[1..];
      if IsRemoved(s[0]) then DropRemovedChars(s[1..])
      else [s[0]] + DropRemovedChars(s[1..])
  }

  /** Every character other than '4' and '_' survives the filter as often as it occurs. */
  lemma {:induction false} DropRemovedKeepsOthers(s: string)
    ensures forall c :: !IsRemoved(c) ==> multiset(DropRemovedChars(s))[c] == multiset(s)[c]
  {
    if s != [] {
      DropRemovedKeepsOthers(s[1..]);
      assert s == [s[0]] + s[1..];
    }
  }

  /** A string with no '4' and no '_' passes the filter unchanged. */
  lemma {:induction false} DropRemovedFixpoint(s: string)
    ensures DropRemovedChars(s) == s <==> forall i :: 0 <= i < |s| ==> !IsRemoved(s[i])
  {
    if s != [] && forall i :: 0 <= i < |s| ==> !IsRemoved(s[i]) {
      assert !IsRemoved(s[0]);
      assert forall i :: 0 <= i < |s[1..]| ==> !IsRemoved(s[1..][i]);
      DropRemovedFixpoint(s[1..]);
    }
  }

  /** Filtering twice is filtering once. */
  lemma {:induction false} DropRemovedIdempotent(s: string)
    ensures DropRemovedChars(DropRemovedChars(s)) == DropRemovedChars(s)
  {
    DropRemovedFixpoint(DropRemovedChars(s));
  }

  // ---------------------------------------------------------------------------
  // Stage 3: '$' becomes '£'
  // ---------------------------------------------------------------------------

  /** Replaces each '$' by '£' one for one; the length does not change. */
  function ReplaceDollars(s: string): (r: string)
    ensures |r| == |s|
    ensures forall i :: 0 <= i < |s| ==> r[i] == if s[i] == '$' then Pound else s[i]
  {
    if s == [] then [] else [if s[0] == '$' then Pound else s[0]] + ReplaceDollars(s[1..])
  }

  /** Substituting twice is substituting once. */
  lemma ReplaceDollarsIdempotent(s: string)
    ensures ReplaceDollars(ReplaceDollars(s)) == ReplaceDollars(s)
  {
  }

  // ---------------------------------------------------------------------------
  // Stage 4: truncation
  // ---------------------------------------------------------------------------

  /** The first `n` characters of `s`, or all of `s` when it is shorter. */
  function TakeFirst(s: string, n: nat): (r: string)
    ensures r <= s
    ensures |r| == if |s| <= n then |s| else n
  {
    if |s| <= n then s else s[..n]
  }

  // ---------------------------------------------------------------------------
  // The per-string pipeline
  // ---------------------------------------------------------------------------

  /** The characters the pipeline selects before they are cut to length. */
  function Substituted(s: string): string {
    ReplaceDollars(DropRemovedChars(RemoveRepeatingChars(s)))
  }

  /** The pipeline applied to a present string. */
  function Pipeline(s: string): (r: string)
    ensures |r| <= MaxInputLength
    ensures forall i :: 0 <= i < |r| ==> !IsForbidden(r[i])
    ensures r <= Substituted(s)
    ensures |Substituted(s)| <= MaxInputLength ==> r == Substituted(s)
    ensures |Substituted(s)| > MaxInputLength ==> |r| == MaxInputLength
  {
    TakeFirst(Substituted(s), MaxInputLength)
  }

  /** What processing one optional input yields: null stays null. */
  function ProcessedValue(input: Option<string>): Option<string> {
    match input
    case None => None
    case Some(s) => Some(Pipeline(s))
  }

  /**
   * Processes one optional string: the selected characters are appended one
   * by one to an initially empty builder.
   */
  method ProcessSingleString(input: Option<string>) returns (output: Option<string>)
    ensures output.None? <==> input.None?
    ensures input.Some? ==> output == Some(Pipeline(input.value))
  {
    var processedChars: string := [];
    if input.None? {
      return None;
    }
    var selected := Pipeline(input.value);
    var i := 0;
    while i < |selected|
      invariant 0 <= i <= |selected|
      invariant processedChars == selected[..i]
    {
      processedChars := processedChars + [selected[i]];
      i := i + 1;
    }
    assert selected[..i] == selected;
    output := Some(processedChars);
  }

  /** Being a subsequence is transitive. */
  lemma {:induction false} SubsequenceTransitive(a: string, b: string, c: string)
    requires IsSubsequence(a, b) && IsSubsequence(b, c)
    ensures IsSubsequence(a, c)
    decreases |c|
  {
    if c != [] {
      if IsSubsequence(b, c[1..]) {
        SubsequenceTransitive(a, b, c[1..]);
      } else if a != [] && a[0] == b[0] && IsSubsequence(a[1..], b[1..]) {
        SubsequenceTransitive(a[1..], b[1..], c[1..]);
      } else {
        SubsequenceTransitive(a, b[1..], c[1..]);
      }
    }
  }

  /**
   * The characters the pipeline keeps appear in the input in the same
   * order, and the substitution neither adds nor removes characters.
   */
  lemma {:induction false} PipelineKeepsOrder(s: string)
    ensures IsSubsequence(DropRemovedChars(RemoveRepeatingChars(s)), s)
    ensures |Substituted(s)| == |DropRemovedChars(RemoveRepeatingChars(s))|
  {
    var collapsed := RemoveRepeatingChars(s);
    CollapseKeepsCharacters(s);
    SubsequenceTransitive(DropRemovedChars(collapsed), collapsed, s);
  }

  /** Two equal characters can become neighbours after the filter: "a4a" gives "aa". */
  lemma PipelineMayHaveAdjacentDuplicates()
    ensures Pipeline("a4a") == "aa"
    ensures !NoAdjacentDuplicates(Pipeline("a4a"))
  {
    var s := "a4a";
    assert s[1..] == "4a" && s[1..][1..] == "a";
    assert RemoveRepeatingChars("4a") == "4a";
    assert RemoveRepeatingChars(s) == s;
    assert DropRemovedChars("a") == "a";
    assert DropRemovedChars("4a") == "a";
    assert DropRemovedChars(s) == "aa";
    assert ReplaceDollars("aa") == "aa";
  }

  /** So the whole pipeline is not idempotent although each stage is. */
  lemma PipelineNotIdempotent()
    ensures Pipeline(Pipeline("a4a")) != Pipeline("a4a")
  {
    PipelineMayHaveAdjacentDuplicates();
    assert RemoveRepeatingChars("aa") == "a";
  }

  /** The collapse treats the two sides of a run boundary independently. */
  lemma {:induction false} CollapseAppend(x: string, y: string)
    requires x != [] && y != [] && x[|x| - 1] != y[0]
    ensures RemoveRepeatingChars(x + y) == RemoveRepeatingChars(x) + RemoveRepeatingChars(y)
  {
    var xy := x + y;
    if |x| == 1 {
      assert xy[1..] == y && xy[0] != xy[1];
    } else {
      assert xy[1..] == x[1..] + y && xy[0] == x[0] && xy[1] == x[1];
      CollapseAppend(x[1..], y);
    }
  }

  /** The filter acts on each character on its own, so it distributes over concatenation. */
  lemma {:induction false} DropRemovedAppend(x: string, y: string)
    ensures DropRemovedChars(x + y) == DropRemovedChars(x) + DropRemovedChars(y)
  {
    if x == [] {
      assert x + y == y;
    } else {
      assert (x + y)[1..] == x[1..] + y;
      DropRemovedAppend(x[1..], y);
    }
  }

  /** The substitution acts on each character on its own, so it distributes over concatenation. */
  lemma ReplaceDollarsAppend(x: string, y: string)
    ensures ReplaceDollars(x + y) == ReplaceDollars(x) + ReplaceDollars(y)
  {
  }

  /** Before truncation, the pipeline handles the two sides of a run boundary independently. */
  lemma SubstitutedAppend(x: string, y: string)
    requires x != [] && y != [] && x[|x| - 1] != y[0]
    ensures Substituted(x + y) == Substituted(x) + Substituted(y)
  {
    CollapseAppend(x, y);
    DropRemovedAppend(RemoveRepeatingChars(x), RemoveRepeatingChars(y));
    ReplaceDollarsAppend(DropRemovedChars(RemoveRepeatingChars(x)), DropRemovedChars(RemoveRepeatingChars(y)));
  }

  // ---------------------------------------------------------------------------
  // The batch operation
  // ---------------------------------------------------------------------------

  /**
   * Every input is processed; null and empty results are dropped; the rest
   * are gathered into a set, which merges equal results.
   */
  function ProcessStrings(inputs: seq<Option<string>>): (r: set<string>)
    ensures forall v :: v in r ==> v != [] && exists x :: x in inputs && ProcessedValue(x) == Some(v)
    ensures forall x :: x in inputs && NotNullOrEmpty(ProcessedValue(x)) ==> ProcessedValue(x).value in r
  {
    set x | x in inputs && NotNullOrEmpty(ProcessedValue(x)) :: ProcessedValue(x).value
  }

  /** Number of entries that are not null. */
  function CountPresent(inputs: seq<Option<string>>): (n: nat)
    ensures n <= |inputs|
  {
    if inputs == [] then 0 else (if inputs[0].Some? then 1 else 0) + CountPresent(inputs[1..])
  }

  /** Every element of the result is short and free of '4', '_' and '$'. */
  lemma ProcessStringsOutputsClean(inputs: seq<Option<string>>, v: string)
    requires v in ProcessStrings(inputs)
    ensures 0 < |v| <= MaxInputLength
    ensures forall i :: 0 <= i < |v| ==> !IsForbidden(v[i])
  {
    var x :| x in inputs && ProcessedValue(x) == Some(v);
  }

  /** The result has at most one element per non-null input. */
  lemma {:induction false} ProcessStringsSize(inputs: seq<Option<string>>)
    ensures |ProcessStrings(inputs)| <= CountPresent(inputs)
  {
    if inputs != [] {
      var x, rest := inputs[0], inputs[1..];
      var added := if NotNullOrEmpty(ProcessedValue(x)) then {ProcessedValue(x).value} else {};
      assert ProcessStrings(inputs) == ProcessStrings(rest) + added by {
        assert forall y :: y in inputs <==> y == x || y in rest;
      }
      ProcessStringsSize(rest);
    }
  }

  /** The result depends only on which values occur in the input, not on their order or multiplicity. */
  lemma ProcessStringsIgnoresOrder(inputs: seq<Option<string>>, others: seq<Option<string>>)
    requires forall x :: x in inputs <==> x in others
    ensures ProcessStrings(inputs) == ProcessStrings(others)
  {
  }

  /** Two inputs that process to the same non-empty string give one element. */
  lemma ProcessStringsMergesEqualResults(x: Option<string>, y: Option<string>)
    requires NotNullOrEmpty(ProcessedValue(x)) && ProcessedValue(x) == ProcessedValue(y)
    ensures ProcessStrings([x, y]) == {ProcessedValue(x).value}
    ensures |ProcessStrings([x, y])| == 1
  {
  }
}
