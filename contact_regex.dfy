/** `name.matchAll(regex)` for the global regex `Contact(?<number>\s\d+)*` on a note's
    basename: every match, left to right, with the text the named group `number` captured in
    its last repetition. */
module ContactRegex {
  import opened Wrappers
  import opened Text

  /** The literal the pattern starts with; matching is case-sensitive and unanchored. */
  const Base: string := "Contact"

  predicate OccursAt(s: string, i: nat)
  {
    i + |Base| <= |s| && s[i..i + |Base|] == Base
  }

  /** The basename contains `Contact` somewhere. */
  predicate ContainsBase(s: string)
  {
    exists i :: 0 <= i <= |s| && OccursAt(s, i)
  }

  /** Positions `lo..hi` of the text one repetition of the group consumed. */
  datatype Span = Span(lo: nat, hi: nat)

  /** Where the greedy `(\s\d+)*` after `Contact` stops, and the span of its last repetition. */
  datatype Tail = Tail(end: nat, last: Option<Span>)

  /** One element of the `matchAll` iterator: where the match starts and ends, and the text of
      the group `number` (`None` when the group did not take part, i.e. `groups.number` is
      undefined). */
  datatype Match = Match(start: nat, end: nat, number: Option<string>)

  /** A repetition of `\s\d+` can begin at `q`: one whitespace character, then a digit. */
  predicate RepetitionAt(s: string, q: nat)
  {
    q + 1 < |s| && IsSpace(s[q]) && IsDigit(s[q + 1])
  }

  /** The first occurrence of `Contact` at or after `i`: where a global regex resumes its search. */
  function FindFrom(s: string, i: nat): (r: Option<nat>)
    ensures r.Some? ==> i <= r.value && OccursAt(s, r.value)
    ensures r.Some? ==> forall k :: i <= k < r.value ==> !OccursAt(s, k)
    ensures r.None? ==> forall k: nat :: i <= k ==> !OccursAt(s, k)
    decreases |s| - i
  {
    if |s| < i + |Base| then None
    else if OccursAt(s, i) then Some(i)
    else FindFrom(s, i + 1)
  }

  /** `s[q..end]` is a chain of repetitions of `\s\d+` in which every digit run is maximal:
      it starts with a whitespace character, every whitespace character in it is followed by a
      digit inside it, and no digit follows it. */
  predicate IsRepetitionChain(s: string, q: nat, end: nat)
    requires q <= end <= |s|
  {
    (end > q ==> IsSpace(s[q]))
    && (forall k :: q <= k < end && IsSpace(s[k]) ==> k + 1 < end && IsDigit(s[k + 1]))
    && (end > q ==> end == |s| || !IsDigit(s[end]))
  }

  /** One repetition (a whitespace character and a maximal digit run) in front of a chain is a
      chain. */
  lemma ChainExtends(s: string, q: nat, e: nat, end: nat)
    requires RepetitionAt(s, q) && e == DigitRunEnd(s, q + 1)
    requires e <= end <= |s| && IsRepetitionChain(s, e, end)
    ensures IsRepetitionChain(s, q, end)
  {
    forall k | q < k < e
      ensures !IsSpace(s[k])
    {
      DigitIsNotSpace(s[k]);
    }
  }

  /** The greedy `(\s\d+)*` starting at `q`. Nothing follows it in the pattern, so the first
      path the backtracking matcher tries succeeds: every `\d+` takes all the digits it can and
      the group repeats while another whitespace-then-digit follows. The group keeps the
      capture of its last repetition. */
  function Repetitions(s: string, q: nat): (t: Tail)
    requires q <= |s|
    ensures q <= t.end <= |s|
    ensures !RepetitionAt(s, t.end)
    ensures t.last.None? <==> t.end == q
    ensures t.last.Some? ==> var sp := t.last.value;
      q <= sp.lo && sp.lo + 1 < sp.hi == t.end && IsSpace(s[sp.lo])
      && forall k :: sp.lo < k < sp.hi ==> IsDigit(s[k])
    ensures forall k :: q <= k < t.end ==> IsSpace(s[k]) || IsDigit(s[k])
    ensures IsRepetitionChain(s, q, t.end)
    decreases |s| - q
  {
    if RepetitionAt(s, q) then
      var e := DigitRunEnd(s, q + 1);
      var rest := Repetitions(s, e);
      ChainExtends(s, q, e, rest.end);
      Tail(rest.end, if rest.last.None? then Some(Span(q, e)) else rest.last)
    else
      Tail(q, None)
  }

  /** The match that begins with the occurrence of `Contact` at `j`. */
  function MatchAt(s: string, j: nat): (m: Match)
    requires OccursAt(s, j)
  {
    var t := Repetitions(s, j + |Base|);
    Match(j, t.end, if t.last.Some? then Some(s[t.last.value.lo..t.last.value.hi]) else None)
  }

  /** What every match of the pattern looks like: it starts with `Contact`, stays inside the
      string, and a captured group is one whitespace character followed by at least one digit. */
  predicate WellFormed(s: string, m: Match)
  {
    OccursAt(s, m.start) && m.start + |Base| <= m.end <= |s|
    && (m.number.Some? ==>
          var g := m.number.value;
          |g| >= 2 && IsSpace(g[0]) && AllDigits(g[1..]))
  }

  lemma MatchAtWellFormed(s: string, j: nat)
    requires OccursAt(s, j)
    ensures WellFormed(s, MatchAt(s, j))
  {
    var m := MatchAt(s, j);
    if m.number.Some? {
      var g := m.number.value;
      assert forall k :: 1 <= k < |g| ==> g[1..][k - 1] == g[k];
    }
  }

  /** The matches at or after `i`, left to right and non-overlapping: after each match the
      search resumes at its end (`lastIndex`). */
  function MatchesFrom(s: string, i: nat): (ms: seq<Match>)
    requires i <= |s|
    ensures ms == [] <==> forall k: nat :: i <= k ==> !OccursAt(s, k)
    ensures forall n :: 0 <= n < |ms| ==> WellFormed(s, ms[n]) && i <= ms[n].start
    ensures forall n :: 0 < n < |ms| ==> ms[n - 1].end <= ms[n].start
    decreases |s| - i
  {
    match FindFrom(s, i)
    case None => []
    case Some(j) =>
      var m := MatchAt(s, j);
      MatchAtWellFormed(s, j);
      [m] + MatchesFrom(s, m.end)
  }

  /** All matches in a basename. */
  function Matches(s: string): (ms: seq<Match>)
    ensures ms == [] <==> !ContainsBase(s)
    ensures forall m :: m in ms ==> WellFormed(s, m)
  {
    MatchesFrom(s, 0)
  }

  /** The iteration misses no occurrence: although the search resumes after each match, every
      `Contact` in the basename begins a match of its own, because `Contact` cannot overlap
      itself and the digits and whitespace a match consumes contain no `C`. */
  lemma {:induction false} EveryOccurrenceMatched(s: string, i: nat, k: nat)
    requires i <= k && OccursAt(s, k)
    ensures i <= |s|
    ensures exists m :: m in MatchesFrom(s, i) && m.start == k
    decreases |s| - i
  {
    var j := FindFrom(s, i).value;
    var m := MatchAt(s, j);
    var ms := MatchesFrom(s, i);
    assert ms == [m] + MatchesFrom(s, m.end);
    if j == k {
      assert ms[0] == m;
    } else {
      NoOccurrenceInsideMatch(s, j, k);
      EveryOccurrenceMatched(s, m.end, k);
      var m' :| m' in MatchesFrom(s, m.end) && m'.start == k;
      assert m' in ms;
    }
  }

  /** An occurrence after `j` does not begin inside the match that starts at `j`. */
  lemma NoOccurrenceInsideMatch(s: string, j: nat, k: nat)
    requires OccursAt(s, j) && OccursAt(s, k) && j < k
    ensures MatchAt(s, j).end <= k
  {
    assert s[k] == 'C' by { assert s[k..k + |Base|][0] == s[k]; }
    if k < j + |Base| {
      assert false;
    }
    var t := Repetitions(s, j + |Base|);
    if k < t.end {
      assert false;
    }
  }

  /** The group does not take part when `Contact` is not followed by a whitespace-then-digit. */
  lemma BareMatch(s: string, j: nat)
    requires OccursAt(s, j) && !RepetitionAt(s, j + |Base|)
    ensures MatchAt(s, j) == Match(j, j + |Base|, None)
  {
  }

  /** `Contact` followed by exactly one space and a non-empty run of digits is a single match
      whose group captured the space and the digits. */
  lemma {:induction false} NumberedName(ds: string)
    requires ds != [] && AllDigits(ds)
    ensures Matches(Base + " " + ds) == [Match(0, |Base| + 1 + |ds|, Some(" " + ds))]
  {
    var s := Base + " " + ds;
    assert OccursAt(s, 0) by { assert s[0..|Base|] == Base; }
    assert FindFrom(s, 0) == Some(0);
    assert forall k :: |Base| + 1 <= k < |s| ==> IsDigit(s[k]) by {
      assert forall k :: |Base| + 1 <= k < |s| ==> s[k] == ds[k - |Base| - 1];
    }
    assert RepetitionAt(s, |Base|);
    var e := DigitRunEnd(s, |Base| + 1);
    assert e == |s|;
    assert Repetitions(s, e) == Tail(|s|, None);
    assert s[|Base|..|s|] == " " + ds;
    assert MatchesFrom(s, |s|) == [];
  }

  /** `Contact` followed by one space and nothing else is a single match with no group. */
  lemma SpaceEndedName()
    ensures Matches(Base + " ") == [Match(0, |Base|, None)]
  {
    var s := Base + " ";
    assert OccursAt(s, 0) by { assert s[0..|Base|] == Base; }
    assert FindFrom(s, 0) == Some(0);
    assert MatchesFrom(s, |Base|) == [];
  }

  /** The bare name `Contact` is a single match with no group. */
  lemma BareName()
    ensures Matches(Base) == [Match(0, |Base|, None)]
  {
    assert OccursAt(Base, 0) by { assert Base[0..|Base|] == Base; }
    assert FindFrom(Base, 0) == Some(0);
    assert MatchesFrom(Base, |Base|) == [];
  }

  /** The repeated group keeps only its last repetition: in `Contact 3 9` it captured ` 9`. */
  lemma LastRepetitionCaptured()
    ensures Matches("Contact 3 9") == [Match(0, 11, Some(" 9"))]
  {
    var s := "Contact 3 9";
    assert OccursAt(s, 0) by { assert s[0..|Base|] == Base; }
    assert FindFrom(s, 0) == Some(0);
    assert RepetitionAt(s, 7);
    assert DigitRunEnd(s, 8) == 9;
    assert RepetitionAt(s, 9);
    assert DigitRunEnd(s, 10) == 11;
    assert Repetitions(s, 11) == Tail(11, None);
    assert Repetitions(s, 9) == Tail(11, Some(Span(9, 11)));
    assert s[9..11] == " 9";
    assert MatchesFrom(s, 11) == [];
  }

  /** The pattern is not anchored: `My Contact List` matches, with no group. */
  lemma UnanchoredMatch()
    ensures Matches("My Contact List") == [Match(3, 10, None)]
  {
    var s := "My Contact List";
    assert s[0..7][0] == 'M' && s[1..8][0] == 'y' && s[2..9][0] == ' ';
    assert OccursAt(s, 3) by { assert s[3..10] == Base; }
    assert FindFrom(s, 0) == Some(3);
    assert !RepetitionAt(s, 10);
    assert FindFrom(s, 10) == None;
  }
}
