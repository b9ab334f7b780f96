/** The next-note-number deriver: the entries visited under the contacts folder are scanned
    for `Contact` matches and the suffix for the next `Contact <n>` note is derived from them. */
module Numbering {
  import opened Wrappers
  import opened Text
  import opened ContactRegex

  /** An entry the folder traversal visits: a note file with its basename, or a folder. */
  datatype Entry = File(basename: string) | Folder(path: string)

  function Max(a: nat, b: nat): nat
  {
    if a < b then b else a
  }

  // ---------------------------------------------------------------------------------------
  // What the accumulator must end up as: the least number above every captured number

  /** The least accumulator value a match calls for: 1 for a bare `Contact`, one above the
      captured number for a numbered one (0 for a group that trims to nothing, which the
      source skips). */
  function Demand(m: Match): nat
  {
    match m.number
    case None => 1
    case Some(g) => if Trim(g) != "" then ParseInt(Trim(g)) + 1 else 0
  }

  /** `n` meets what every match in every file basename calls for. */
  ghost predicate MeetsDemands(entries: seq<Entry>, n: nat)
  {
    forall e, m :: e in entries && e.File? && m in Matches(e.basename) ==> Demand(m) <= n
  }

  /** The independent definition of the next number: the least bound of all the matches. */
  ghost predicate IsLeastBound(entries: seq<Entry>, n: nat)
  {
    MeetsDemands(entries, n) && forall k: nat :: MeetsDemands(entries, k) ==> n <= k
  }

  // ---------------------------------------------------------------------------------------
  // The scan, as functions

  /** The body of the loop over the matches of one basename. */
  function Step(acc: nat, m: Match): (r: nat)
    ensures r == Max(acc, Demand(m))
  {
    match m.number
    case None => if acc == 0 then 1 else acc
    case Some(g) =>
      var digits := Trim(g);
      if digits != "" then Max(acc, ParseInt(digits) + 1) else acc
  }

  /** The loop over the matches of one basename, from accumulator `acc`. */
  function ScanMatches(acc: nat, ms: seq<Match>): nat
  {
    if ms == [] then acc else Step(ScanMatches(acc, ms[..|ms| - 1]), ms[|ms| - 1])
  }

  /** The traversal callback: entries that are not files are skipped. */
  function Visit(acc: nat, e: Entry): nat
  {
    if e.File? then ScanMatches(acc, Matches(e.basename)) else acc
  }

  /** The accumulator `nextNumber` after the traversal visited `entries`, starting from 0. */
  function NextNumber(entries: seq<Entry>): nat
  {
    if entries == [] then 0
    else Visit(NextNumber(entries[..|entries| - 1]), entries[|entries| - 1])
  }

  /** The returned suffix: empty for 0, otherwise the decimal numeral. */
  function Suffix(n: nat): (r: string)
    ensures r == "" <==> n == 0
    ensures n > 0 ==> AllDigits(r) && r[0] != '0' && ParseInt(r) == n
  {
    if n == 0 then "" else ParseIntOfNatToString(n); NatToString(n)
  }

  // ---------------------------------------------------------------------------------------
  // The scan, as the source runs it

  /** The callback `findNextFileNumber` hands to the traversal, with the captured
      `nextNumber` passed in and returned: it returns at once for an entry that is not a file,
      and otherwise loops over the matches in the basename. */
  method VisitContactNote(nextNumber: nat, contactNote: Entry) returns (updated: nat)
    ensures updated == Visit(nextNumber, contactNote)
  {
    updated := nextNumber;
    if !contactNote.File? {
      return;
    }
    var name := contactNote.basename;
    var matches := Matches(name);
    for j := 0 to |matches|
      invariant updated == ScanMatches(nextNumber, matches[..j])
    {
      var found := matches[j];
      assert matches[..j + 1] == matches[..j] + [found];
      if found.number.None? {
        if updated == 0 {
          updated := 1;
        }
        continue;
      }
      var currentNumberString := Trim(found.number.value);
      if currentNumberString != "" {
        var currentNumber := ParseInt(currentNumberString);
        updated := Max(updated, currentNumber + 1);
      }
    }
    assert matches[..|matches|] == matches;
  }

  /** `findNextFileNumber`: the traversal visits the entries in order and the callback updates
      `nextNumber`; 0 becomes the empty suffix, anything else its decimal numeral. */
  method FindNextFileNumber(entries: seq<Entry>) returns (suffix: string)
    ensures suffix == Suffix(NextNumber(entries))
    ensures suffix == "" <==> forall e :: e in entries && e.File? ==> !ContainsBase(e.basename)
  {
    var nextNumber := 0;
    for i := 0 to |entries|
      invariant nextNumber == NextNumber(entries[..i])
    {
      assert entries[..i + 1] == entries[..i] + [entries[i]];
      nextNumber := VisitContactNote(nextNumber, entries[i]);
    }
    assert entries[..|entries|] == entries;
    suffix := if nextNumber == 0 then "" else NatToString(nextNumber);
    NoContactIffZero(entries);
  }

  /** The file-only filter of the traversal. */
  function Files(entries: seq<Entry>): (fs: seq<Entry>)
    ensures forall e :: e in fs <==> e in entries && e.File?
    ensures |fs| <= |entries|
    ensures forall e :: multiset(fs)[e] == if e.File? then multiset(entries)[e] else 0
  {
    if entries == [] then []
    else
      assert entries == entries[..|entries| - 1] + [entries[|entries| - 1]];
      if entries[|entries| - 1].File? then Files(entries[..|entries| - 1]) + [entries[|entries| - 1]]
      else Files(entries[..|entries| - 1])
  }

  /** `findContactFiles`: the traversal pushes every file it visits, in visiting order. */
  method FindContactFiles(entries: seq<Entry>) returns (contactFiles: seq<Entry>)
    ensures contactFiles == Files(entries)
  {
    contactFiles := [];
    for i := 0 to |entries|
      invariant contactFiles == Files(entries[..i])
    {
      assert entries[..i + 1][..i] == entries[..i];
      if entries[i].File? {
        contactFiles := contactFiles + [entries[i]];
      }
    }
    assert entries[..|entries|] == entries;
  }

  // ---------------------------------------------------------------------------------------
  // Properties of the scan

  /** Scanning the matches of one basename raises the accumulator to the largest demand
      among them and no further. */
  lemma {:induction false} ScanMatchesBounds(acc: nat, ms: seq<Match>)
    ensures acc <= ScanMatches(acc, ms)
    ensures forall m :: m in ms ==> Demand(m) <= ScanMatches(acc, ms)
    ensures ScanMatches(acc, ms) == acc || exists m :: m in ms && Demand(m) == ScanMatches(acc, ms)
  {
    if ms != [] {
      var p := ms[..|ms| - 1];
      var last := ms[|ms| - 1];
      ScanMatchesBounds(acc, p);
      assert ms == p + [last];
      var a := ScanMatches(acc, p);
      if a < Demand(last) {
        assert last in ms;
      }
      if ScanMatches(acc, ms) != acc && a >= Demand(last) {
        var m :| m in p && Demand(m) == a;
        assert m in ms;
      }
    }
  }

  /** The scan ends at or above every demand and, unless it is 0, exactly at one of them. */
  lemma {:induction false} NextNumberBounds(entries: seq<Entry>)
    ensures MeetsDemands(entries, NextNumber(entries))
    ensures NextNumber(entries) == 0 ||
      exists e, m :: e in entries && e.File? && m in Matches(e.basename) && Demand(m) == NextNumber(entries)
  {
    if entries != [] {
      var p := entries[..|entries| - 1];
      var last := entries[|entries| - 1];
      assert entries == p + [last];
      NextNumberBounds(p);
      var a := NextNumber(p);
      var r := NextNumber(entries);
      if last.File? {
        ScanMatchesBounds(a, Matches(last.basename));
      }
      if r != 0 && r == a {
        var e, m :| e in p && e.File? && m in Matches(e.basename) && Demand(m) == a;
        assert e in entries;
      }
    }
  }

  /** The scan computes the least number above what every match asks for: at least 1 when a
      bare `Contact` occurs, above every captured number, and no larger than that requires. */
  lemma NextNumberIsLeastBound(entries: seq<Entry>)
    ensures IsLeastBound(entries, NextNumber(entries))
  {
    NextNumberBounds(entries);
    var r := NextNumber(entries);
    forall k: nat | MeetsDemands(entries, k)
      ensures r <= k
    {
      if r != 0 {
        var e, m :| e in entries && e.File? && m in Matches(e.basename) && Demand(m) == r;
      }
    }
  }

  /** In the source's own terms: the number is above every number any `number` group
      captured, and at least 1 when a bare `Contact` occurs. */
  lemma AboveEveryCapturedNumber(entries: seq<Entry>)
    ensures forall e, m :: e in entries && e.File? && m in Matches(e.basename) && m.number.Some? ==>
      ParseInt(Trim(m.number.value)) < NextNumber(entries)
    ensures forall e, m :: e in entries && e.File? && m in Matches(e.basename) && m.number.None? ==>
      1 <= NextNumber(entries)
  {
    var n := NextNumber(entries);
    NextNumberBounds(entries);
    forall e, m | e in entries && e.File? && m in Matches(e.basename)
      ensures m.number.Some? ==> ParseInt(Trim(m.number.value)) < n
      ensures m.number.None? ==> 1 <= n
    {
      assert Demand(m) <= n;
      if m.number.Some? {
        assert WellFormed(e.basename, m);
        CapturedTrimsToDigits(e.basename, m);
      }
    }
  }

  /** The result depends only on which files are visited: not on their order, not on repeated
      visits, and not on any folder entries. */
  lemma SameFilesSameNumber(xs: seq<Entry>, ys: seq<Entry>)
    requires forall e :: e in xs && e.File? <==> e in ys && e.File?
    ensures NextNumber(xs) == NextNumber(ys)
  {
    NextNumberIsLeastBound(xs);
    NextNumberIsLeastBound(ys);
    forall k: nat
      ensures MeetsDemands(xs, k) <==> MeetsDemands(ys, k)
    {
    }
  }

  /** Visiting the same entries in another order yields the same number. */
  lemma OrderIndependent(xs: seq<Entry>, ys: seq<Entry>)
    requires multiset(xs) == multiset(ys)
    ensures NextNumber(xs) == NextNumber(ys)
  {
    forall e
      ensures e in xs <==> e in ys
    {
      assert e in xs <==> e in multiset(xs);
      assert e in ys <==> e in multiset(ys);
    }
    SameFilesSameNumber(xs, ys);
  }

  /** Folder entries never contribute: the files alone, as `findContactFiles` collects them,
      yield the same number. */
  lemma FoldersIgnored(entries: seq<Entry>)
    ensures NextNumber(Files(entries)) == NextNumber(entries)
  {
    SameFilesSameNumber(Files(entries), entries);
  }

  /** The number is 0, and the suffix empty, exactly when no file basename contains `Contact`. */
  lemma NoContactIffZero(entries: seq<Entry>)
    ensures NextNumber(entries) == 0 <==> forall e :: e in entries && e.File? ==> !ContainsBase(e.basename)
  {
    if forall e :: e in entries && e.File? ==> !ContainsBase(e.basename) {
      NoMatchesZero(entries);
    } else {
      var e :| e in entries && e.File? && ContainsBase(e.basename);
      SomeMatchPositive(entries, e);
    }
  }

  lemma NoMatchesZero(entries: seq<Entry>)
    requires forall e :: e in entries && e.File? ==> !ContainsBase(e.basename)
    ensures NextNumber(entries) == 0
  {
    NextNumberIsLeastBound(entries);
    assert forall e :: e in entries && e.File? ==> Matches(e.basename) == [];
    assert MeetsDemands(entries, 0);
  }

  lemma SomeMatchPositive(entries: seq<Entry>, e: Entry)
    requires e in entries && e.File? && ContainsBase(e.basename)
    ensures NextNumber(entries) >= 1
  {
    NextNumberIsLeastBound(entries);
    var ms := Matches(e.basename);
    var m := ms[0];
    assert m in ms;
    if m.number.Some? {
      CapturedTrimsToDigits(e.basename, m);
    }
    assert Demand(m) >= 1;
  }

  /** A captured group trims to a non-empty string of digits, so the empty-string guard in the
      loop never skips a numbered match and `parseInt` reads the whole number. */
  lemma CapturedTrimsToDigits(s: string, m: Match)
    requires WellFormed(s, m) && m.number.Some?
    ensures Trim(m.number.value) == m.number.value[1..] != ""
    ensures AllDigits(Trim(m.number.value))
  {
    var g := m.number.value;
    assert g == [g[0]] + g[1..];
    TrimSpaceThenDigits(g[0], g[1..]);
  }

  /** Matches that are all bare leave a positive accumulator unchanged. */
  lemma {:induction false} BareMatchesKeep(acc: nat, ms: seq<Match>)
    requires acc > 0
    requires forall m :: m in ms ==> m.number.None?
    ensures ScanMatches(acc, ms) == acc
  {
    if ms != [] {
      assert ms[|ms| - 1] in ms;
      var p := ms[..|ms| - 1];
      assert forall m :: m in p ==> m in ms;
      BareMatchesKeep(acc, p);
    }
  }

  /** A bare `Contact` note lifts the number from 0 to 1 and never overrides a higher one. */
  lemma AddingBareContact(entries: seq<Entry>)
    ensures NextNumber(entries + [File(Base)]) == Max(NextNumber(entries), 1)
  {
    BareName();
    var xs := entries + [File(Base)];
    assert xs[..|xs| - 1] == entries;
    var ms := Matches(Base);
    assert ms[..0] == [];
    assert ScanMatches(NextNumber(entries), ms) == Step(NextNumber(entries), ms[0]);
  }

  /** A folder entry leaves the number unchanged. */
  lemma AddingFolder(entries: seq<Entry>, p: string)
    ensures NextNumber(entries + [Folder(p)]) == NextNumber(entries)
  {
    var ys := entries + [Folder(p)];
    assert ys[..|ys| - 1] == entries;
  }
}
