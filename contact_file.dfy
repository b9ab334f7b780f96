/** `createContactFile`: resolve the contacts folder, derive the next suffix from what it
    holds, and request a note named `Contact <suffix>.md` with the selected template's body. */
module ContactFile {
  import opened Wrappers
  import opened Text
  import opened ContactRegex
  import opened Numbering
  import opened Templates

  /** The basename of the requested note: `Contact `, then the suffix (possibly empty). */
  function NewBasename(suffix: string): string
  {
    "Contact " + suffix
  }

  /** The file name handed to the path join: the basename with the `.md` extension. */
  function NewFileName(suffix: string): string
  {
    NewBasename(suffix) + ".md"
  }

  /** A request to the vault to create `fileName` under `folderPath` holding `content`. */
  datatype CreateRequest = CreateRequest(folderPath: string, fileName: string, content: string)

  /** What one invocation does: show a notice and stop, or issue one create request. */
  datatype Outcome = NoticeShown(message: string) | CreateRequested(request: CreateRequest)

  function NotFoundMessage(folderPath: string): string
  {
    "Can not find path: '" + folderPath + "'. Please update \"Contacts\" plugin settings"
  }

  /** `createContactFile`. `folder` is what the lookup of `folderPath` resolved to, given as
      the entries the traversal of it visits; `None` when the path resolves to nothing. */
  function CreateContactFile(folderPath: string, folder: Option<seq<Entry>>,
                             template: TemplateType, settingsTemplate: string): (o: Outcome)
    ensures o.NoticeShown? <==> folder.None?
    ensures folder.None? ==> o.message == NotFoundMessage(folderPath)
    ensures folder.Some? ==> o.request.folderPath == folderPath
    ensures folder.Some? ==> o.request.fileName == "Contact " + Suffix(NextNumber(folder.value)) + ".md"
    ensures folder.Some? ==> o.request.content == GetNewFileContent(settingsTemplate, template)
    ensures folder.Some? ==>
      forall e :: e in folder.value && e.File? ==> e.basename + ".md" != o.request.fileName
  {
    match folder
    case None => NoticeShown(NotFoundMessage(folderPath))
    case Some(entries) =>
      FreshFileName(entries);
      CreateRequested(CreateRequest(folderPath, NewFileName(Suffix(NextNumber(entries))),
                                    GetNewFileContent(settingsTemplate, template)))
  }

  /** The requested file name differs from that of every note the scan visited. */
  lemma FreshFileName(entries: seq<Entry>)
    ensures forall e :: e in entries && e.File? ==> e.basename + ".md" != NewFileName(Suffix(NextNumber(entries)))
  {
    NoCollision(entries);
    ExtensionInjective(NewBasename(Suffix(NextNumber(entries))));
  }

  /** The requested basename is the pattern's literal, one space, then the suffix. */
  lemma NewBasenameStartsWithBase(suffix: string)
    ensures NewBasename(suffix) == Base + " " + suffix
  {
    assert Base + " " == "Contact ";
  }

  lemma ExtensionInjective(b: string)
    ensures forall a :: a + ".md" == b + ".md" ==> a == b
  {
    forall a | a + ".md" == b + ".md"
      ensures a == b
    {
      assert a == (a + ".md")[..|a|];
    }
  }

  /** The match in `Contact <digits>` asks for one above the digits' value. */
  lemma NumberedMatchStep(acc: nat, ds: string)
    requires ds != [] && AllDigits(ds)
    ensures Step(acc, Match(0, |Base| + 1 + |ds|, Some(" " + ds))) == Max(acc, DigitsValue(ds) + 1)
  {
    assert " " + ds == [' '] + ds;
    TrimSpaceThenDigits(' ', ds);
    ParseIntOfDigits(ds);
  }

  /** Appending a file whose basename holds exactly one match applies one step. */
  lemma AddingSingleMatchFile(entries: seq<Entry>, b: string, m: Match)
    requires Matches(b) == [m]
    ensures NextNumber(entries + [File(b)]) == Step(NextNumber(entries), m)
  {
    var xs := entries + [File(b)];
    var a := NextNumber(entries);
    assert xs[..|xs| - 1] == entries;
    assert NextNumber(xs) == Visit(a, File(b)) == ScanMatches(a, [m]);
    assert [m][..0] == [];
    assert ScanMatches(a, [m]) == Step(ScanMatches(a, []), m);
  }

  /** A note named `Contact <digits>` raises the number to above its digits' value. */
  lemma AddingNumberedContact(entries: seq<Entry>, ds: string)
    requires ds != [] && AllDigits(ds)
    ensures NextNumber(entries + [File(NewBasename(ds))]) == Max(NextNumber(entries), DigitsValue(ds) + 1)
  {
    NumberedName(ds);
    NewBasenameStartsWithBase(ds);
    AddingSingleMatchFile(entries, NewBasename(ds), Match(0, |Base| + 1 + |ds|, Some(" " + ds)));
    NumberedMatchStep(NextNumber(entries), ds);
  }

  /** A note named `Contact <numeral of k>` raises the number to above `k`. */
  lemma AddingNumeral(entries: seq<Entry>, k: nat)
    ensures NextNumber(entries + [File(NewBasename(NatToString(k)))]) == Max(NextNumber(entries), k + 1)
  {
    var ds := NatToString(k);
    var a := NextNumber(entries);
    var xs := entries + [File(NewBasename(ds))];
    AddingNumberedContact(entries, ds);
    assert NextNumber(xs) == Max(a, DigitsValue(ds) + 1);
    DigitsValueOfNatToString(k);
    assert DigitsValue(ds) == k;
  }

  /** The one match in the requested basename asks for more than the number it was made from. */
  lemma NewBasenameAsksMore(n: nat)
    ensures |Matches(NewBasename(Suffix(n)))| == 1
    ensures Demand(Matches(NewBasename(Suffix(n)))[0]) == n + 1
  {
    NewBasenameStartsWithBase(Suffix(n));
    if n == 0 {
      SpaceEndedName();
    } else {
      var ds := NatToString(n);
      NumberedName(ds);
      assert " " + ds == [' '] + ds;
      TrimSpaceThenDigits(' ', ds);
      ParseIntOfNatToString(n);
    }
  }

  /** The requested basename is free: no file the scan visited has it. */
  lemma NoCollision(entries: seq<Entry>)
    ensures forall e :: e in entries && e.File? ==> e.basename != NewBasename(Suffix(NextNumber(entries)))
  {
    var n := NextNumber(entries);
    NextNumberIsLeastBound(entries);
    NewBasenameAsksMore(n);
    var b := NewBasename(Suffix(n));
    assert Matches(b)[0] in Matches(b);
  }

  /** Numbering is sequential: once the requested note exists, the next scan yields the next
      number. */
  lemma CreatedNoteAdvancesNumber(entries: seq<Entry>)
    ensures NextNumber(entries + [File(NewBasename(Suffix(NextNumber(entries))))]) == NextNumber(entries) + 1
  {
    var n := NextNumber(entries);
    if n == 0 {
      assert Suffix(n) == "";
      SpaceEndedName();
      NewBasenameStartsWithBase("");
      AddingSingleMatchFile(entries, NewBasename(""), Match(0, |Base|, None));
      assert Step(0, Match(0, |Base|, None)) == 1;
    } else {
      assert Suffix(n) == NatToString(n);
      AddingNumeral(entries, n);
    }
  }

  /** The request `createContactFile` issues once the suffix is known. */
  lemma RequestForSuffix(path: string, entries: seq<Entry>, template: TemplateType, custom: string, suffix: string)
    requires Suffix(NextNumber(entries)) == suffix
    ensures CreateContactFile(path, Some(entries), template, custom) ==
      CreateRequested(CreateRequest(path, "Contact " + suffix + ".md", GetNewFileContent(custom, template)))
  {
  }

  /** An empty folder: the note is `Contact .md` (with the space) holding the contact table. */
  lemma EmptyFolderScenario(path: string)
    ensures CreateContactFile(path, Some([]), Default, "") ==
      CreateRequested(CreateRequest(path, "Contact .md", CustomFormat))
  {
    RequestForSuffix(path, [], Default, "", "");
  }

  /** A folder holding only the note numbered `k` yields `k + 1`. */
  lemma SingleNumberedFolder(k: nat)
    ensures NextNumber([File(NewBasename(NatToString(k)))]) == k + 1
  {
    var none: seq<Entry> := [];
    var one := [File(NewBasename(NatToString(k)))];
    AddingNumeral(none, k);
    assert none + [File(NewBasename(NatToString(k)))] == one;
    assert NextNumber(none) == 0;
  }

  lemma NineName()
    ensures NewBasename(NatToString(9)) == "Contact 9"
  {
    assert NatToString(9) == "9";
    assert NewBasename("9") == "Contact 9";
  }

  lemma NinthFolderNumber()
    ensures NextNumber([File("Contact 9")]) == 10
  {
    SingleNumberedFolder(9);
    NineName();
  }

  lemma TenthFileName()
    ensures Suffix(10) == "10" && "Contact " + Suffix(10) + ".md" == "Contact 10.md"
  {
    assert NatToString(10) == "10";
  }

  /** A folder holding `Contact 9`, frontmatter kind: the note is `Contact 10.md`. */
  lemma NinthContactScenario(path: string, custom: string)
    ensures CreateContactFile(path, Some([File("Contact 9")]), Frontmatter, custom) ==
      CreateRequested(CreateRequest(path, "Contact 10.md", FrontmatterFormat))
  {
    NinthFolderNumber();
    TenthFileName();
    RequestForSuffix(path, [File("Contact 9")], Frontmatter, custom, "10");
  }

  /** The missing-folder path: a notice naming the path, and no create request. */
  lemma MissingFolderScenario(path: string, template: TemplateType, custom: string)
    ensures !CreateContactFile(path, None, template, custom).CreateRequested?
  {
  }

  /** Two numbered notes yield one above the larger number. */
  lemma TwoNumberedFolder(k1: nat, k2: nat)
    ensures NextNumber([File(NewBasename(NatToString(k1))), File(NewBasename(NatToString(k2)))])
      == Max(k1 + 1, k2 + 1)
  {
    var one := [File(NewBasename(NatToString(k1)))];
    var two := one + [File(NewBasename(NatToString(k2)))];
    SingleNumberedFolder(k1);
    AddingNumeral(one, k2);
    assert two == [File(NewBasename(NatToString(k1))), File(NewBasename(NatToString(k2)))];
  }

  lemma ThreeSevenNames()
    ensures NewBasename(NatToString(3)) == "Contact 3" && NewBasename(NatToString(7)) == "Contact 7"
  {
    assert NatToString(3) == "3" && NatToString(7) == "7";
    assert NewBasename("3") == "Contact 3" && NewBasename("7") == "Contact 7";
  }

  lemma ThreeSevenNumber()
    ensures NextNumber([File("Contact 3"), File("Contact 7")]) == 8
  {
    TwoNumberedFolder(3, 7);
    ThreeSevenNames();
    assert Max(3 + 1, 7 + 1) == 8;
  }

  lemma EighthSuffix()
    ensures Suffix(8) == "8"
  {
  }

  /** `Contact 3` and `Contact 7` yield `8` in either order. */
  lemma NumberingExampleThreeSeven()
    ensures Suffix(NextNumber([File("Contact 3"), File("Contact 7")])) == "8"
    ensures Suffix(NextNumber([File("Contact 7"), File("Contact 3")])) == "8"
  {
    ThreeSevenNumber();
    EighthSuffix();
    OrderIndependent([File("Contact 3"), File("Contact 7")], [File("Contact 7"), File("Contact 3")]);
  }

  /** A folder holding only the bare `Contact` note yields 1. */
  lemma BareFolder()
    ensures NextNumber([File(Base)]) == 1
  {
    var none: seq<Entry> := [];
    AddingBareContact(none);
    assert none + [File(Base)] == [File(Base)];
    assert NextNumber(none) == 0;
  }

  /** A bare `Contact` followed by one numbered note. */
  lemma BareThenNumbered(k1: nat)
    ensures NextNumber([File(Base), File(NewBasename(NatToString(k1)))]) == Max(1, k1 + 1)
  {
    var one := [File(Base)];
    BareFolder();
    AddingNumeral(one, k1);
    assert one + [File(NewBasename(NatToString(k1)))] == [File(Base), File(NewBasename(NatToString(k1)))];
  }

  /** A bare `Contact` followed by two numbered notes. */
  lemma BareThenTwoNumbered(k1: nat, k2: nat)
    ensures NextNumber([File(Base), File(NewBasename(NatToString(k1))), File(NewBasename(NatToString(k2)))])
      == Max(Max(1, k1 + 1), k2 + 1)
  {
    var two := [File(Base), File(NewBasename(NatToString(k1)))];
    BareThenNumbered(k1);
    AddingNumeral(two, k2);
    assert two + [File(NewBasename(NatToString(k2)))]
      == [File(Base), File(NewBasename(NatToString(k1))), File(NewBasename(NatToString(k2)))];
  }

  lemma OneTwoNames()
    ensures NewBasename(NatToString(1)) == "Contact 1" && NewBasename(NatToString(2)) == "Contact 2"
    ensures File(Base) == File("Contact")
  {
    assert NatToString(1) == "1" && NatToString(2) == "2";
    assert NewBasename("1") == "Contact 1" && NewBasename("2") == "Contact 2";
  }

  lemma BareOneTwoNumber()
    ensures NextNumber([File("Contact"), File("Contact 1"), File("Contact 2")]) == 3
  {
    BareThenTwoNumbered(1, 2);
    OneTwoNames();
    assert Max(Max(1, 1 + 1), 2 + 1) == 3;
  }

  lemma ThirdSuffix()
    ensures Suffix(3) == "3"
  {
  }

  /** `Contact`, `Contact 1` and `Contact 2` yield `3`. */
  lemma NumberingExampleBareOneTwo()
    ensures Suffix(NextNumber([File("Contact"), File("Contact 1"), File("Contact 2")])) == "3"
  {
    BareOneTwoNumber();
    ThirdSuffix();
  }
}
