/** The canonical stream behind a package's content id: when it is the same for two bundles, and
    when that means the bundles are the same. */
module ContentStream {
  import opened Wrappers
  import opened BundleInventory

  const NUL: char := '\0'
  const HEADER := "remagic-bundle-content-v1"

  /** A file as the stream describes it, with its mode as a number. */
  datatype Item = Item(path: string, mode: nat, size: nat, sha: string)

  function Canonical(f: File): Item
    requires ParseMode(f.mode).Some?
  {
    Item(f.path, ParseMode(f.mode).value, f.size, f.sha)
  }

  predicate Parsed(files: seq<File>) {
    forall i :: 0 <= i < |files| ==> ParseMode(files[i].mode).Some?
  }

  function Items(files: seq<File>): (items: seq<Item>)
    requires Parsed(files)
    ensures |items| == |files| && forall i :: 0 <= i < |files| ==> items[i] == Canonical(files[i])
  {
    if files == [] then [] else [Canonical(files[0])] + Items(files[1..])
  }

  // ----- Order of paths -----

  predicate Below(a: string, b: string) {
    if b == "" then false
    else if a == "" then true
    else if a[0] != b[0] then a[0] < b[0]
    else Below(a[1..], b[1..])
  }

  lemma {:induction false} BelowIsIrreflexive(a: string)
    ensures !Below(a, a)
  {
    if a != "" {
      BelowIsIrreflexive(a[1..]);
    }
  }

  lemma {:induction false} BelowIsTotal(a: string, b: string)
    ensures a == b || Below(a, b) || Below(b, a)
    ensures !(Below(a, b) && Below(b, a)) && !Below(a, a)
    decreases |a| + |b|
  {
    BelowIsIrreflexive(a);
    if a != "" && b != "" && a[0] == b[0] {
      BelowIsTotal(a[1..], b[1..]);
      assert a == [a[0]] + a[1..] && b == [b[0]] + b[1..];
    }
  }

  lemma {:induction false} BelowIsTransitive(a: string, b: string, c: string)
    requires Below(a, b) && Below(b, c)
    ensures Below(a, c)
    decreases |a|
  {
    if a != "" && a[0] == b[0] == c[0] {
      BelowIsTransitive(a[1..], b[1..], c[1..]);
    }
  }

  /** At the first place where they differ, `a` has ended or has the smaller character. */
  predicate Lexicographic(a: string, b: string, n: nat) {
    n <= |a| && n < |b| && a[..n] == b[..n] && (n == |a| || a[n] < b[n])
  }

  lemma PrefixHead(a: string, b: string, n: nat)
    requires a != "" && b != "" && n <= |a| && n <= |b| && a[..n] == b[..n]
    ensures n > 0 ==> a[0] == b[0]
  {
    if n > 0 {
      assert a[0] == a[..n][0] && b[0] == b[..n][0];
    }
  }

  lemma {:induction false} BelowExactly(a: string, b: string)
    ensures Below(a, b) <==> exists n: nat :: Lexicographic(a, b, n)
    decreases |a|
  {
    if b == "" {
    } else if a == "" {
      assert Lexicographic(a, b, 0);
    } else if a[0] != b[0] {
      if a[0] < b[0] {
        assert Lexicographic(a, b, 0);
      }
      if n: nat :| Lexicographic(a, b, n) {
        PrefixHead(a, b, n);
      }
    } else {
      BelowExactly(a[1..], b[1..]);
      if n: nat :| Lexicographic(a[1..], b[1..], n) {
        LexicographicToo(a, b, n);
      }
      if n: nat :| Lexicographic(a, b, n) {
        LexicographicTail(a, b, n);
      }
    }
  }

  lemma LexicographicToo(a: string, b: string, n: nat)
    requires a != "" && b != "" && a[0] == b[0] && Lexicographic(a[1..], b[1..], n)
    ensures Lexicographic(a, b, n + 1)
  {
    assert a[..n + 1] == [a[0]] + a[1..][..n] && b[..n + 1] == [b[0]] + b[1..][..n];
  }

  lemma LexicographicTail(a: string, b: string, n: nat)
    requires a != "" && b != "" && a[0] == b[0] && Lexicographic(a, b, n)
    ensures n > 0 && Lexicographic(a[1..], b[1..], n - 1)
  {
    assert a[1..][..n - 1] == a[..n][1..] && b[1..][..n - 1] == b[..n][1..];
  }

  predicate InOrder(items: seq<Item>) {
    forall i, j :: 0 <= i < j < |items| ==> Below(items[i].path, items[j].path)
  }

  function Insert(x: Item, items: seq<Item>): seq<Item> {
    if items == [] || !Below(items[0].path, x.path) then [x] + items else [items[0]] + Insert(x, items[1..])
  }

  function Sorted(items: seq<Item>): seq<Item> {
    if items == [] then [] else Insert(items[0], Sorted(items[1..]))
  }

  predicate Apart(x: Item, items: seq<Item>) {
    forall i :: 0 <= i < |items| ==> items[i].path != x.path
  }

  lemma {:induction false} InsertedHas(x: Item, items: seq<Item>, y: Item)
    ensures y in Insert(x, items) <==> y == x || y in items
  {
    if items != [] && Below(items[0].path, x.path) {
      InsertedHas(x, items[1..], y);
      assert items == [items[0]] + items[1..];
    }
  }

  lemma {:induction false} SortedHas(items: seq<Item>, y: Item)
    ensures y in Sorted(items) <==> y in items
  {
    if items != [] {
      SortedHas(items[1..], y);
      InsertedHas(items[0], Sorted(items[1..]), y);
      assert items == [items[0]] + items[1..];
    }
  }

  lemma {:induction false} InsertedInOrder(x: Item, items: seq<Item>)
    requires InOrder(items) && Apart(x, items)
    ensures InOrder(Insert(x, items))
  {
    if items == [] {
    } else if Below(items[0].path, x.path) {
      var tail := items[1..];
      assert InOrder(tail) && Apart(x, tail);
      InsertedInOrder(x, tail);
      forall y | y in Insert(x, tail)
        ensures Below(items[0].path, y.path)
      {
        InsertedHas(x, tail, y);
      }
    } else {
      BelowIsTotal(x.path, items[0].path);
      forall j | 0 < j < |items|
        ensures Below(x.path, items[j].path)
      {
        BelowIsTransitive(x.path, items[0].path, items[j].path);
      }
    }
  }

  predicate DistinctItems(items: seq<Item>) {
    forall i, j :: 0 <= i < j < |items| ==> items[i].path != items[j].path
  }

  lemma {:induction false} SortedInOrder(items: seq<Item>)
    requires DistinctItems(items)
    ensures InOrder(Sorted(items))
  {
    if items != [] {
      var x, tail := items[0], items[1..];
      SortedInOrder(tail);
      forall y | y in Sorted(tail)
        ensures y.path != x.path
      {
        SortedHas(tail, y);
      }
      InsertedInOrder(x, Sorted(tail));
    }
  }

  predicate SameItems(a: seq<Item>, b: seq<Item>) {
    (forall i :: 0 <= i < |a| ==> a[i] in b) && (forall i :: 0 <= i < |b| ==> b[i] in a)
  }

  lemma FirstIsLeast(a: seq<Item>, y: Item)
    requires InOrder(a) && y in a
    ensures y == a[0] || Below(a[0].path, y.path)
  {
  }

  lemma SameFirst(a: seq<Item>, b: seq<Item>)
    requires InOrder(a) && InOrder(b) && SameItems(a, b) && a != []
    ensures b != [] && a[0] == b[0]
  {
    assert a[0] in b;
    FirstIsLeast(b, a[0]);
    FirstIsLeast(a, b[0]);
    BelowIsTotal(a[0].path, b[0].path);
  }

  /** A set of items has one order. */
  lemma {:induction false} OneOrder(a: seq<Item>, b: seq<Item>)
    requires InOrder(a) && InOrder(b) && SameItems(a, b)
    ensures a == b
  {
    if a == [] {
      if b != [] {
        SameFirst(b, a);
      }
    } else {
      SameFirst(a, b);
      forall i | 0 < i < |a|
        ensures a[i] in b[1..]
      {
        BelowIsTotal(a[0].path, a[i].path);
      }
      forall i | 0 < i < |b|
        ensures b[i] in a[1..]
      {
        BelowIsTotal(b[0].path, b[i].path);
      }
      OneOrder(a[1..], b[1..]);
      assert a == [a[0]] + a[1..] && b == [b[0]] + b[1..];
    }
  }

  lemma SortedAlike(a: seq<Item>, b: seq<Item>)
    requires DistinctItems(a) && DistinctItems(b) && SameItems(a, b)
    ensures Sorted(a) == Sorted(b)
  {
    SortedInOrder(a);
    SortedInOrder(b);
    forall y
      ensures y in Sorted(a) <==> y in Sorted(b)
    {
      SortedHas(a, y);
      SortedHas(b, y);
    }
    OneOrder(Sorted(a), Sorted(b));
  }

  // ----- The stream -----

  function Digits(n: nat, base: nat): string
    requires base in {8, 10}
  {
    var digit := ('0' as int + n % base) as char;
    if n < base then [digit] else Digits(n / base, base) + [digit]
  }

  /** A field, its NUL, and what follows. */
  function Field(a: string, rest: string): string {
    a + [NUL] + rest
  }

  function Record(f: Item, rest: string): string {
    Field(f.path, Field(Digits(f.mode, 8), Field(Digits(f.size, 10), f.sha + ("\n" + rest))))
  }

  function Records(items: seq<Item>): string {
    if items == [] then "" else Record(items[0], Records(items[1..]))
  }

  function Payload(items: seq<Item>): seq<Item> {
    if items == [] then []
    else (if "payload/" <= items[0].path then [items[0]] else []) + Payload(items[1..])
  }

  function Content(b: Bundle): string
    requires Parsed(b.files)
  {
    Field(HEADER, Field(b.app, Field(b.package, Field(b.version, Records(Sorted(Items(b.files)))))))
  }

  function PayloadContent(b: Bundle): string
    requires Parsed(b.files)
  {
    Records(Payload(Sorted(Items(b.files))))
  }

  lemma RecordThen(f: Item, a: string, b: string)
    ensures Record(f, a + b) == Record(f, a) + b
  {
    assert f.sha + ("\n" + (a + b)) == (f.sha + ("\n" + a)) + b;
    FieldThen(Digits(f.size, 10), f.sha + ("\n" + a), b);
    FieldThen(Digits(f.mode, 8), Field(Digits(f.size, 10), f.sha + ("\n" + a)), b);
    FieldThen(f.path, Field(Digits(f.mode, 8), Field(Digits(f.size, 10), f.sha + ("\n" + a))), b);
  }

  lemma FieldThen(x: string, a: string, b: string)
    ensures Field(x, a + b) == Field(x, a) + b
  {
    assert x + [NUL] + (a + b) == (x + [NUL] + a) + b;
  }

  lemma {:induction false} RecordsOfOneMore(items: seq<Item>, f: Item)
    ensures Records(items + [f]) == Records(items) + Record(f, "")
  {
    if items == [] {
      assert items + [f] == [f] && Records([]) == "" && [f][1..] == [];
    } else {
      assert (items + [f])[1..] == items[1..] + [f] && (items + [f])[0] == items[0];
      RecordsOfOneMore(items[1..], f);
      RecordThen(items[0], Records(items[1..]), Record(f, ""));
    }
  }

  lemma {:induction false} PayloadOfOneMore(items: seq<Item>, f: Item)
    ensures Payload(items + [f]) == Payload(items) + (if "payload/" <= f.path then [f] else [])
  {
    if items == [] {
      assert items + [f] == [f] && [f][1..] == [];
    } else {
      assert (items + [f])[1..] == items[1..] + [f] && (items + [f])[0] == items[0];
      PayloadOfOneMore(items[1..], f);
    }
  }

  lemma Regrouped(a: string, b: string, c: string)
    ensures a + (b + c) == (a + b) + c
  {
  }

  lemma OneMoreLine(head: string, ordered: seq<Item>, n: nat)
    requires n < |ordered|
    ensures head + Records(ordered[..n + 1]) == head + Records(ordered[..n]) + Record(ordered[n], "")
  {
    assert ordered[..n + 1] == ordered[..n] + [ordered[n]];
    RecordsOfOneMore(ordered[..n], ordered[n]);
    Regrouped(head, Records(ordered[..n]), Record(ordered[n], ""));
  }

  lemma OneMorePayload(ordered: seq<Item>, n: nat)
    requires n < |ordered|
    ensures Records(Payload(ordered[..n + 1])) ==
            Records(Payload(ordered[..n])) + if "payload/" <= ordered[n].path then Record(ordered[n], "") else ""
  {
    assert ordered[..n + 1] == ordered[..n] + [ordered[n]];
    PayloadOfOneMore(ordered[..n], ordered[n]);
    if "payload/" <= ordered[n].path {
      RecordsOfOneMore(Payload(ordered[..n]), ordered[n]);
    } else {
      assert Payload(ordered[..n]) + [] == Payload(ordered[..n]);
    }
  }

  /** Both hashed streams, built file by file in the order of the paths. */
  method BuildStreams(b: Bundle) returns (content: string, payload: string)
    requires Parsed(b.files)
    ensures content == Content(b) && payload == PayloadContent(b)
  {
    var ordered := Sorted(Items(b.files));
    content := HEADER + [NUL] + b.app + [NUL] + b.package + [NUL] + b.version + [NUL];
    ghost var head := content;
    payload := "";
    for n := 0 to |ordered|
      invariant content == head + Records(ordered[..n])
      invariant payload == Records(Payload(ordered[..n]))
    {
      OneMoreLine(head, ordered, n);
      OneMorePayload(ordered, n);
      var line := Record(ordered[n], "");
      content := content + line;
      if "payload/" <= ordered[n].path {
        payload := payload + line;
      }
    }
    assert ordered[..|ordered|] == ordered;
    HeadIs(b, Records(ordered));
  }

  lemma HeadIs(b: Bundle, records: string)
    ensures Field(HEADER, Field(b.app, Field(b.package, Field(b.version, records)))) ==
            HEADER + [NUL] + b.app + [NUL] + b.package + [NUL] + b.version + [NUL] + records
  {
  }

  // ----- What the stream spells -----

  function Spelled(items: seq<Item>): string {
    if items == [] then ""
    else
      var f := items[0];
      f.path + "\0" + Digits(f.mode, 8) + "\0" + Digits(f.size, 10) + "\0" + f.sha + "\n" + Spelled(items[1..])
  }

  lemma {:induction false} RecordsSpell(items: seq<Item>)
    ensures Records(items) == Spelled(items)
  {
    if items != [] {
      RecordsSpell(items[1..]);
      var f, rest := items[0], Records(items[1..]);
      assert f.sha + ("\n" + rest) == f.sha + "\n" + rest;
      assert Field(Digits(f.size, 10), f.sha + ("\n" + rest)) == Digits(f.size, 10) + "\0" + f.sha + "\n" + rest;
      assert Record(f, rest) == f.path + "\0" + Digits(f.mode, 8) + "\0" + Digits(f.size, 10) + "\0" + f.sha + "\n" + rest;
    }
  }

  /** The content stream, character by character: a header, application, package and version, and then
      a line for each file in the order of the paths. */
  lemma ContentSpells(b: Bundle)
    requires Parsed(b.files)
    ensures Content(b) == "remagic-bundle-content-v1" + "\0" + b.app + "\0" + b.package + "\0" + b.version + "\0"
                          + Spelled(Sorted(Items(b.files)))
    ensures PayloadContent(b) == Spelled(Payload(Sorted(Items(b.files))))
  {
    RecordsSpell(Sorted(Items(b.files)));
    RecordsSpell(Payload(Sorted(Items(b.files))));
    HeadIs(b, Records(Sorted(Items(b.files))));
  }

  /** The number a numeral stands for. */
  function Value(s: string, base: nat): int {
    if s == "" then 0 else Value(s[..|s| - 1], base) * base + (s[|s| - 1] as int - 48)
  }

  /** A numeral stands for its number, and has no leading zero. */
  lemma {:induction false} DigitsRead(n: nat, base: nat)
    requires base in {8, 10}
    ensures Value(Digits(n, base), base) == n
    ensures Digits(n, base) != "" && (Digits(n, base)[0] == '0' ==> n == 0)
  {
    LastDigit(n, base);
    if n >= base {
      DigitsRead(n / base, base);
      assert Digits(n, base)[0] == Digits(n / base, base)[0];
    } else {
      assert Digits(n, base)[..0] == "";
    }
  }

  // ----- The order of the inventory does not matter -----

  predicate SameFiles(a: Bundle, b: Bundle)
    requires Parsed(a.files) && Parsed(b.files)
  {
    SameItems(Items(a.files), Items(b.files))
  }

  /** Bundles that name the same files in any order, modes in any spelling, have the same streams. */
  lemma SameFilesSameStreams(a: Bundle, b: Bundle)
    requires Parsed(a.files) && Parsed(b.files) && DistinctPaths(a.files) && DistinctPaths(b.files) && SameFiles(a, b)
    requires a.app == b.app && a.package == b.package && a.version == b.version
    ensures Content(a) == Content(b) && PayloadContent(a) == PayloadContent(b)
  {
    SortedAlike(Items(a.files), Items(b.files));
  }

  // ----- The stream tells bundles apart -----

  predicate Clean(s: string) {
    NUL !in s
  }

  lemma NulIsAtTheEnd(a: string, x: string, k: nat)
    requires Clean(a) && k <= |a|
    ensures Field(a, x)[k] == NUL <==> k == |a|
  {
  }

  lemma FieldsMatch(a: string, x: string, b: string, y: string)
    requires Clean(a) && Clean(b) && Field(a, x) == Field(b, y)
    ensures a == b && x == y
  {
    var s := Field(a, x);
    if |a| <= |b| {
      NulIsAtTheEnd(a, x, |a|);
      NulIsAtTheEnd(b, y, |a|);
    } else {
      NulIsAtTheEnd(a, x, |b|);
      NulIsAtTheEnd(b, y, |b|);
    }
    assert s[..|a|] == a && s[..|b|] == b && s[|a| + 1..] == x && s[|b| + 1..] == y;
  }

  lemma {:induction false} DigitsAreClean(n: nat, base: nat)
    requires base in {8, 10}
    ensures Clean(Digits(n, base)) && Digits(n, base) != ""
  {
    if n >= base {
      DigitsAreClean(n / base, base);
    }
  }

  lemma LastDigit(n: nat, base: nat)
    requires base in {8, 10}
    ensures var s := Digits(n, base);
            && s != "" && s[|s| - 1] as int == '0' as int + n % base
            && (if n < base then |s| == 1 else |s| > 1 && s[..|s| - 1] == Digits(n / base, base))
  {
    if n >= base {
      DigitsAreClean(n / base, base);
    }
  }

  /** Numerals tell numbers apart. */
  lemma {:induction false} DigitsMatch(m: nat, n: nat, base: nat)
    requires base in {8, 10} && Digits(m, base) == Digits(n, base)
    ensures m == n
    decreases m
  {
    LastDigit(m, base);
    LastDigit(n, base);
    if m >= base {
      DigitsMatch(m / base, n / base, base);
    }
  }

  /** On disk no path holds a NUL; a hash has 64 digits. */
  predicate ItemOnDisk(f: Item) {
    Clean(f.path) && LowerHex64(f.sha)
  }

  predicate OnDisk(items: seq<Item>) {
    forall i :: 0 <= i < |items| ==> ItemOnDisk(items[i])
  }

  lemma RecordsMatch(f: Item, x: string, g: Item, y: string)
    requires ItemOnDisk(f) && ItemOnDisk(g) && Record(f, x) == Record(g, y)
    ensures f == g && x == y
  {
    DigitsAreClean(f.mode, 8);
    DigitsAreClean(g.mode, 8);
    DigitsAreClean(f.size, 10);
    DigitsAreClean(g.size, 10);
    var fs, gs := f.sha + ("\n" + x), g.sha + ("\n" + y);
    FieldsMatch(f.path, Field(Digits(f.mode, 8), Field(Digits(f.size, 10), fs)),
                g.path, Field(Digits(g.mode, 8), Field(Digits(g.size, 10), gs)));
    FieldsMatch(Digits(f.mode, 8), Field(Digits(f.size, 10), fs), Digits(g.mode, 8), Field(Digits(g.size, 10), gs));
    FieldsMatch(Digits(f.size, 10), fs, Digits(g.size, 10), gs);
    DigitsMatch(f.mode, g.mode, 8);
    DigitsMatch(f.size, g.size, 10);
    assert fs[..64] == f.sha && gs[..64] == g.sha && fs[65..] == x && gs[65..] == y;
  }

  lemma {:induction false} AllRecordsMatch(a: seq<Item>, b: seq<Item>)
    requires OnDisk(a) && OnDisk(b) && Records(a) == Records(b)
    ensures a == b
  {
    if a != [] && b != [] {
      RecordsMatch(a[0], Records(a[1..]), b[0], Records(b[1..]));
      AllRecordsMatch(a[1..], b[1..]);
      assert a == [a[0]] + a[1..] && b == [b[0]] + b[1..];
    }
  }

  lemma SortedOnDisk(items: seq<Item>)
    requires OnDisk(items)
    ensures OnDisk(Sorted(items))
  {
    forall y | y in Sorted(items)
      ensures ItemOnDisk(y)
    {
      SortedHas(items, y);
    }
  }

  lemma SortedSame(a: seq<Item>, b: seq<Item>)
    requires Sorted(a) == Sorted(b)
    ensures SameItems(a, b)
  {
    forall y
      ensures y in a <==> y in b
    {
      SortedHas(a, y);
      SortedHas(b, y);
    }
  }

  lemma IdentifierIsClean(s: string)
    requires SafeIdentifier(s)
    ensures Clean(s)
  {
  }

  // A version may hold anything, a NUL too, so the stream may be read in more than one way.

  /** A longer first field has taken in the shorter one and its NUL. */
  lemma FieldsOverlap(a: string, x: string, b: string, y: string)
    requires Field(a, x) == Field(b, y) && |a| <= |b|
    ensures (a == b && x == y) || (exists c :: b == Field(a, c) && x == Field(c, y))
  {
    var s := Field(a, x);
    assert s[..|a|] == a && s[..|b|] == b && s[|a| + 1..] == x && s[|b| + 1..] == y;
    if |a| < |b| {
      var c := b[|a| + 1..];
      assert b[..|a|] == a && b[|a|] == NUL;
      assert b == Field(a, c);
      Regrouped(a + [NUL], Field(c, y), "");
      assert x == Field(c, y);
    }
  }

  lemma CleanIsShorter(a: string, x: string, b: string, y: string)
    requires Clean(a) && Field(a, x) == Field(b, y)
    ensures |a| <= |b|
  {
    if |b| < |a| {
      NulIsAtTheEnd(a, x, |b|);
    }
  }

  /** A field without a NUL is the first one, or the first part of it. */
  lemma CleanFieldFirst(a: string, x: string, b: string, y: string)
    requires Clean(a) && Field(a, x) == Field(b, y)
    ensures (a == b && x == y) || (exists c :: b == Field(a, c) && x == Field(c, y))
  {
    CleanIsShorter(a, x, b, y);
    FieldsOverlap(a, x, b, y);
  }

  lemma {:induction false} DigitsAreDigits(n: nat, base: nat, k: nat)
    requires base in {8, 10} && k < |Digits(n, base)|
    ensures Digit(Digits(n, base)[k])
  {
    if n >= base && k < |Digits(n, base)| - 1 {
      DigitsAreDigits(n / base, base, k);
    }
  }

  /** A hash and its newline are never read as a number. */
  lemma HashIsNoNumber(n: nat, base: nat, x: string, sha: string, y: string)
    requires base in {8, 10} && LowerHex64(sha)
    ensures Field(Digits(n, base), x) != sha + ("\n" + y)
  {
    var d, s, t := Digits(n, base), Field(Digits(n, base), x), sha + ("\n" + y);
    if |d| <= 64 {
      assert s[|d|] == NUL && t[|d|] != NUL;
    } else {
      DigitsAreDigits(n, base, 64);
      assert s[64] == d[64] && t[64] == '\n';
    }
  }

  /** What a version that takes in the records before item `k`, and all of that item's but its hash,
      ends with. */
  function Front(items: seq<Item>, k: nat): string
    requires k < |items|
  {
    if k > 0 then Record(items[0], Front(items[1..], k - 1))
    else Field(items[0].path, Field(Digits(items[0].mode, 8), Digits(items[0].size, 10)))
  }

  function Grown(sha: string, f: Item): Item {
    f.(path := sha + ("\n" + f.path))
  }

  /** What is then left: the hash becomes the front of the next path. */
  function Left(items: seq<Item>, k: nat): seq<Item>
    requires k + 1 < |items|
  {
    [Grown(items[k].sha, items[k + 1])] + items[k + 2..]
  }

  lemma RecordGrows(sha: string, f: Item, x: string)
    ensures Record(Grown(sha, f), x) == sha + ("\n" + Record(f, x))
  {
    var y := Field(Digits(f.mode, 8), Field(Digits(f.size, 10), f.sha + ("\n" + x)));
    assert (sha + ("\n" + f.path)) + [NUL] + y == sha + ("\n" + (f.path + [NUL] + y));
  }

  lemma FieldsNest(f: Item, v: string, x: string)
    ensures Field(Record(f, v), x) == Record(f, Field(v, x))
  {
    RecordThen(f, v, [NUL] + x);
    Regrouped(v, [NUL], x);
    Regrouped(Record(f, v), [NUL], x);
  }

  lemma FrontThen(f: Item, x: string)
    ensures Field(Field(f.path, Field(Digits(f.mode, 8), Digits(f.size, 10))), f.sha + ("\n" + x)) == Record(f, x)
  {
    var o, d, y := Digits(f.mode, 8), Digits(f.size, 10), [NUL] + (f.sha + ("\n" + x));
    FieldThen(o, d, y);
    FieldThen(f.path, Field(o, d), y);
  }

  /** The same characters, read in two ways. */
  lemma {:induction false} ReadsBothWays(items: seq<Item>, k: nat)
    requires k + 1 < |items|
    ensures Records(items) == Field(Front(items, k), Records(Left(items, k)))
    decreases k
  {
    if k == 0 {
      var rest := Records(items[2..]);
      assert items[1..][1..] == items[2..] && Left(items, 0)[1..] == items[2..];
      RecordGrows(items[0].sha, items[1], rest);
      FrontThen(items[0], Record(items[1], rest));
    } else {
      ReadsBothWays(items[1..], k - 1);
      assert Left(items[1..], k - 1) == Left(items, k);
      FieldsNest(items[0], Front(items[1..], k - 1), Records(Left(items, k)));
    }
  }

  ghost predicate TakesIn(v: string, a: seq<Item>, b: seq<Item>) {
    exists k: nat :: k + 1 < |a| && v == Front(a, k) && b == Left(a, k)
  }

  /** A version that stops inside the first record stops just before its hash. */
  lemma StopsInRecord(f: Item, x: string, v: string, b: seq<Item>)
    requires ItemOnDisk(f) && OnDisk(b) && Record(f, x) == Field(v, Records(b))
    ensures || (v == Field(f.path, Field(Digits(f.mode, 8), Digits(f.size, 10))) && Records(b) == f.sha + ("\n" + x))
            || exists w :: v == Record(f, w)
  {
    var o, d, z := Digits(f.mode, 8), Digits(f.size, 10), f.sha + ("\n" + x);
    DigitsAreClean(f.mode, 8);
    DigitsAreClean(f.size, 10);
    CleanFieldFirst(f.path, Field(o, Field(d, z)), v, Records(b));
    if v == f.path && Records(b) == Field(o, Field(d, z)) {
      NotAfterPath(f, x, b);
    } else {
      var v2 :| v == Field(f.path, v2) && Field(o, Field(d, z)) == Field(v2, Records(b));
      CleanFieldFirst(o, Field(d, z), v2, Records(b));
      if v2 == o && Records(b) == Field(d, z) {
        NotAfterMode(f, x, b);
      } else {
        var v3 :| v2 == Field(o, v3) && Field(d, z) == Field(v3, Records(b));
        CleanFieldFirst(d, z, v3, Records(b));
        if !(v3 == d && Records(b) == z) {
          var v4 :| v3 == Field(d, v4) && z == Field(v4, Records(b));
          PastHash(f.sha, x, v4, Records(b));
          assert v == Record(f, v4[65..]);
        }
      }
    }
  }

  lemma NotAfterPath(f: Item, x: string, b: seq<Item>)
    requires LowerHex64(f.sha) && OnDisk(b)
    ensures Records(b) != Field(Digits(f.mode, 8), Field(Digits(f.size, 10), f.sha + ("\n" + x)))
  {
    var o, d, z := Digits(f.mode, 8), Digits(f.size, 10), f.sha + ("\n" + x);
    if b != [] && Records(b) == Field(o, Field(d, z)) {
      var g, y := b[0], b[0].sha + ("\n" + Records(b[1..]));
      DigitsAreClean(f.mode, 8);
      DigitsAreClean(f.size, 10);
      DigitsAreClean(g.mode, 8);
      FieldsMatch(g.path, Field(Digits(g.mode, 8), Field(Digits(g.size, 10), y)), o, Field(d, z));
      FieldsMatch(Digits(g.mode, 8), Field(Digits(g.size, 10), y), d, z);
      HashIsNoNumber(g.size, 10, y, f.sha, x);
    }
  }

  lemma NotAfterMode(f: Item, x: string, b: seq<Item>)
    requires LowerHex64(f.sha) && OnDisk(b)
    ensures Records(b) != Field(Digits(f.size, 10), f.sha + ("\n" + x))
  {
    var d, z := Digits(f.size, 10), f.sha + ("\n" + x);
    if b != [] && Records(b) == Field(d, z) {
      var g, y := b[0], b[0].sha + ("\n" + Records(b[1..]));
      DigitsAreClean(f.size, 10);
      FieldsMatch(g.path, Field(Digits(g.mode, 8), Field(Digits(g.size, 10), y)), d, z);
      HashIsNoNumber(g.mode, 8, Field(Digits(g.size, 10), y), f.sha, x);
    }
  }

  lemma PastHash(sha: string, x: string, v: string, y: string)
    requires LowerHex64(sha) && sha + ("\n" + x) == Field(v, y)
    ensures |v| >= 65 && v == sha + ("\n" + v[65..]) && x == Field(v[65..], y)
  {
    var s := sha + ("\n" + x);
    assert s[|v|] == NUL;
    assert |v| >= 65;
    assert s[..64] == sha && s[64] == '\n' && s[65..] == x;
    assert v[..64] == s[..64] && v[64] == s[64];
    assert s[65..] == Field(v[65..], y);
  }

  lemma HashIsNoRecord(sha: string, b: seq<Item>)
    requires LowerHex64(sha)
    ensures Records(b) != sha + ("\n" + "")
  {
    if b != [] {
      assert Records(b)[|b[0].path|] == NUL;
      assert forall i :: 0 <= i < 65 ==> (sha + ("\n" + ""))[i] != NUL;
    }
  }

  /** After the hash comes the next record, its path grown by the hash. */
  lemma HashJoinsPath(f: Item, a: seq<Item>, b: seq<Item>)
    requires LowerHex64(f.sha) && OnDisk(a) && OnDisk(b) && Records(b) == f.sha + ("\n" + Records(a))
    ensures a != [] && b == [Grown(f.sha, a[0])] + a[1..]
  {
    if a == [] {
      HashIsNoRecord(f.sha, b);
    } else {
      var g := Grown(f.sha, a[0]);
      RecordGrows(f.sha, a[0], Records(a[1..]));
      RecordsMatch(b[0], Records(b[1..]), g, Records(a[1..]));
      assert OnDisk(a[1..]) && OnDisk(b[1..]);
      AllRecordsMatch(b[1..], a[1..]);
      assert b == [b[0]] + b[1..];
    }
  }

  /** There is no other way. */
  lemma {:induction false} ReadsNoOtherWay(a: seq<Item>, v: string, b: seq<Item>)
    requires OnDisk(a) && OnDisk(b) && Records(a) == Field(v, Records(b))
    ensures TakesIn(v, a, b)
  {
    assert a != [];
    var f, tail := a[0], a[1..];
    StopsInRecord(f, Records(tail), v, b);
    if w :| v == Record(f, w) {
      FieldsNest(f, w, Records(b));
      RecordsMatch(f, Records(tail), f, Field(w, Records(b)));
      ReadsNoOtherWay(tail, w, b);
      var k: nat :| k + 1 < |tail| && w == Front(tail, k) && b == Left(tail, k);
      assert v == Front(a, k + 1) && b == Left(a, k + 1);
    } else {
      HashJoinsPath(f, tail, b);
      assert v == Front(a, 0) && b == Left(a, 0);
    }
  }

  /** The version `v` and items `a` read another way: `w` is `v`, a NUL and the front of `a`. */
  ghost predicate Swallows(v: string, a: seq<Item>, w: string, b: seq<Item>) {
    exists c :: w == Field(v, c) && TakesIn(c, a, b)
  }

  lemma SwallowedReadsAlike(v: string, a: seq<Item>, w: string, b: seq<Item>)
    requires Swallows(v, a, w, b)
    ensures Field(v, Records(a)) == Field(w, Records(b))
  {
    var c :| w == Field(v, c) && TakesIn(c, a, b);
    var k: nat :| k + 1 < |a| && c == Front(a, k) && b == Left(a, k);
    ReadsBothWays(a, k);
    FieldThen(v, c, [NUL] + Records(b));
    Regrouped(c, [NUL], Records(b));
    Regrouped(w, [NUL], Records(b));
  }

  lemma ReadsAlikeExactly(v: string, a: seq<Item>, w: string, b: seq<Item>)
    requires OnDisk(a) && OnDisk(b) && |v| <= |w|
    ensures Field(v, Records(a)) == Field(w, Records(b)) <==> (v == w && a == b) || Swallows(v, a, w, b)
  {
    if Field(v, Records(a)) == Field(w, Records(b)) {
      FieldsOverlap(v, Records(a), w, Records(b));
      if v == w && Records(a) == Records(b) {
        AllRecordsMatch(a, b);
      } else {
        var c :| w == Field(v, c) && Records(a) == Field(c, Records(b));
        ReadsNoOtherWay(a, c, b);
      }
    } else if Swallows(v, a, w, b) {
      SwallowedReadsAlike(v, a, w, b);
    }
  }

  /** What the stream needs of a bundle: identifiers and modes are well formed, paths distinct and
      without a NUL, hashes 64 hexadecimal digits.  The version may be any string. */
  predicate Listed(b: Bundle) {
    && Parsed(b.files) && DistinctPaths(b.files) && OnDisk(Items(b.files))
    && SafeIdentifier(b.app) && SafeIdentifier(b.package)
  }

  /** What validation accepts is so, once its paths are known to hold no NUL. */
  lemma AcceptableIsListed(b: Bundle)
    requires Acceptable(b) && forall i :: 0 <= i < |b.files| ==> Clean(b.files[i].path)
    ensures Listed(b)
  {
    forall i | 0 <= i < |b.files|
      ensures ParseMode(b.files[i].mode).Some? && LowerHex64(b.files[i].sha)
    {
      assert EntrySound(b.files[i]);
    }
  }

  function Ordered(b: Bundle): seq<Item>
    requires Parsed(b.files)
  {
    Sorted(Items(b.files))
  }

  lemma SameFilesExactly(a: Bundle, b: Bundle)
    requires Listed(a) && Listed(b)
    ensures SameFiles(a, b) <==> Ordered(a) == Ordered(b)
  {
    if SameFiles(a, b) {
      SortedAlike(Items(a.files), Items(b.files));
    } else if Ordered(a) == Ordered(b) {
      SortedSame(Items(a.files), Items(b.files));
    }
  }

  lemma HeadersMatch(a: Bundle, x: string, b: Bundle, y: string)
    requires Clean(a.app) && Clean(b.app) && Clean(a.package) && Clean(b.package)
    ensures Field(HEADER, Field(a.app, Field(a.package, x))) == Field(HEADER, Field(b.app, Field(b.package, y))) <==>
              a.app == b.app && a.package == b.package && x == y
  {
    var s, t := Field(a.app, Field(a.package, x)), Field(b.app, Field(b.package, y));
    if Field(HEADER, s) == Field(HEADER, t) {
      FieldsMatch(HEADER, s, HEADER, t);
      FieldsMatch(a.app, Field(a.package, x), b.app, Field(b.package, y));
      FieldsMatch(a.package, x, b.package, y);
    }
  }

  /** Two bundles on disk have the same content stream if and only if application and package are the
      same, and so are version and files, or else one version ends with the first records of the other
      bundle, up to a hash, and that hash is the front of the next path. */
  lemma SameStreamExactly(a: Bundle, b: Bundle)
    requires Listed(a) && Listed(b)
    ensures Content(a) == Content(b) <==>
              && a.app == b.app && a.package == b.package
              && (|| (a.version == b.version && SameFiles(a, b))
                  || Swallows(a.version, Ordered(a), b.version, Ordered(b))
                  || Swallows(b.version, Ordered(b), a.version, Ordered(a)))
  {
    IdentifierIsClean(a.app);
    IdentifierIsClean(b.app);
    IdentifierIsClean(a.package);
    IdentifierIsClean(b.package);
    SortedOnDisk(Items(a.files));
    SortedOnDisk(Items(b.files));
    SameFilesExactly(a, b);
    HeadersMatch(a, Field(a.version, Records(Ordered(a))), b, Field(b.version, Records(Ordered(b))));
    if |a.version| <= |b.version| {
      ReadsAlikeExactly(a.version, Ordered(a), b.version, Ordered(b));
    } else {
      ReadsAlikeExactly(b.version, Ordered(b), a.version, Ordered(a));
    }
  }

  /** The version is the one the manifest gives, and the manifest is what its hash says. */
  ghost predicate Gives(items: seq<Item>, v: string, version: string -> string) {
    exists y :: y in items && y.path == "manifest.toml" && v == version(y.sha)
  }

  ghost predicate Sealed(b: Bundle, version: string -> string)
    requires Parsed(b.files)
  {
    Gives(Items(b.files), b.version, version)
  }

  lemma GivesSorted(items: seq<Item>, v: string, version: string -> string)
    requires Gives(items, v, version)
    ensures Gives(Sorted(items), v, version)
  {
    var y :| y in items && y.path == "manifest.toml" && v == version(y.sha);
    SortedHas(items, y);
  }

  lemma DistinctInOrder(items: seq<Item>)
    requires InOrder(items)
    ensures DistinctItems(items)
  {
    forall i, j | 0 <= i < j < |items|
      ensures items[i].path != items[j].path
    {
      BelowIsIrreflexive(items[i].path);
    }
  }

  /** What is left keeps its manifest, and so its version. */
  lemma LeftGivesSame(items: seq<Item>, k: nat, v: string, w: string, version: string -> string)
    requires OnDisk(items) && DistinctItems(items) && k + 1 < |items|
    requires Gives(items, v, version) && Gives(Left(items, k), w, version)
    ensures v == w
  {
    var y :| y in items && y.path == "manifest.toml" && v == version(y.sha);
    var z :| z in Left(items, k) && z.path == "manifest.toml" && w == version(z.sha);
    assert ItemOnDisk(items[k]);
    StaysListed(items, k, z);
  }

  lemma StaysListed(items: seq<Item>, k: nat, z: Item)
    requires k + 1 < |items| && |items[k].sha| == 64 && z in Left(items, k) && |z.path| < 64
    ensures z in items
  {
    assert z in items[k + 2..];
  }

  lemma SealedIsNotSwallowed(a: Bundle, b: Bundle, version: string -> string)
    requires Listed(a) && Listed(b) && Sealed(a, version) && Sealed(b, version)
    ensures !Swallows(a.version, Ordered(a), b.version, Ordered(b))
  {
    SortedInOrder(Items(a.files));
    DistinctInOrder(Ordered(a));
    SortedOnDisk(Items(a.files));
    GivesSorted(Items(a.files), a.version, version);
    GivesSorted(Items(b.files), b.version, version);
    GivesIsNotSwallowed(Ordered(a), a.version, Ordered(b), b.version, version);
  }

  lemma GivesIsNotSwallowed(a: seq<Item>, v: string, b: seq<Item>, w: string, version: string -> string)
    requires OnDisk(a) && DistinctItems(a) && Gives(a, v, version) && Gives(b, w, version)
    ensures !Swallows(v, a, w, b)
  {
    if Swallows(v, a, w, b) {
      var c :| w == Field(v, c) && TakesIn(c, a, b);
      var k: nat :| k + 1 < |a| && c == Front(a, k) && b == Left(a, k);
      LeftGivesSame(a, k, v, w, version);
    }
  }

  /** Packages whose versions come from their manifests have the same content stream if and only if
      they agree on application, package, version and the set of files with their modes, sizes and
      hashes. */
  lemma SameStreamMeansSamePackage(a: Bundle, b: Bundle, version: string -> string)
    requires Listed(a) && Listed(b) && Sealed(a, version) && Sealed(b, version)
    ensures Content(a) == Content(b) <==>
              a.app == b.app && a.package == b.package && a.version == b.version && SameFiles(a, b)
  {
    SameStreamExactly(a, b);
    SealedIsNotSwallowed(a, b, version);
    SealedIsNotSwallowed(b, a, version);
  }

  /** And so have bundles whose versions hold no NUL. */
  lemma SameStreamOfCleanVersions(a: Bundle, b: Bundle)
    requires Listed(a) && Listed(b) && Clean(a.version) && Clean(b.version)
    ensures Content(a) == Content(b) <==>
              a.app == b.app && a.package == b.package && a.version == b.version && SameFiles(a, b)
  {
    SameStreamExactly(a, b);
    assert forall v, c :: NUL in Field(v, c) by {
      forall v, c ensures NUL in Field(v, c) {
        assert Field(v, c)[|v|] == NUL;
      }
    }
  }

  // ----- The payload -----

  lemma {:induction false} PayloadHas(items: seq<Item>, y: Item)
    ensures y in Payload(items) <==> y in items && "payload/" <= y.path
  {
    if items != [] {
      PayloadHas(items[1..], y);
      assert items == [items[0]] + items[1..];
    }
  }

  lemma {:induction false} PayloadInOrder(items: seq<Item>)
    requires InOrder(items)
    ensures InOrder(Payload(items))
  {
    if items != [] {
      var rest := Payload(items[1..]);
      PayloadInOrder(items[1..]);
      forall j | 0 <= j < |rest|
        ensures Below(items[0].path, rest[j].path)
      {
        PayloadHas(items[1..], rest[j]);
      }
    }
  }

  lemma PayloadOnDisk(items: seq<Item>)
    requires OnDisk(items)
    ensures OnDisk(Payload(items))
  {
    forall y | y in Payload(items)
      ensures ItemOnDisk(y)
    {
      PayloadHas(items, y);
    }
  }

  /** The same files below the payload directory. */
  ghost predicate SamePayload(a: Bundle, b: Bundle)
    requires Parsed(a.files) && Parsed(b.files)
  {
    forall y: Item :: "payload/" <= y.path ==> (y in Items(a.files) <==> y in Items(b.files))
  }

  lemma PayloadsHave(a: Bundle, y: Item)
    requires Parsed(a.files)
    ensures y in Payload(Ordered(a)) <==> y in Items(a.files) && "payload/" <= y.path
  {
    PayloadHas(Ordered(a), y);
    SortedHas(Items(a.files), y);
  }

  /** Two bundles have the same payload stream if and only if they have the same files below the
      payload directory; the other files, and the rest of the bundle, do not matter. */
  lemma SamePayloadExactly(a: Bundle, b: Bundle)
    requires Listed(a) && Listed(b)
    ensures PayloadContent(a) == PayloadContent(b) <==> SamePayload(a, b)
  {
    PayloadsOnDisk(a);
    PayloadsOnDisk(b);
    var x, y := Payload(Ordered(a)), Payload(Ordered(b));
    if PayloadContent(a) == PayloadContent(b) {
      AllRecordsMatch(x, y);
      SameIsShared(a, b);
    }
    if SamePayload(a, b) {
      SharedIsSame(a, b);
    }
  }

  lemma PayloadsOnDisk(b: Bundle)
    requires Listed(b)
    ensures OnDisk(Payload(Ordered(b))) && InOrder(Payload(Ordered(b)))
  {
    SortedOnDisk(Items(b.files));
    PayloadOnDisk(Ordered(b));
    SortedInOrder(Items(b.files));
    PayloadInOrder(Ordered(b));
  }

  lemma SameIsShared(a: Bundle, b: Bundle)
    requires Parsed(a.files) && Parsed(b.files) && Payload(Ordered(a)) == Payload(Ordered(b))
    ensures SamePayload(a, b)
  {
    forall y: Item | "payload/" <= y.path
      ensures y in Items(a.files) <==> y in Items(b.files)
    {
      PayloadsHave(a, y);
      PayloadsHave(b, y);
    }
  }

  lemma SharedIsSame(a: Bundle, b: Bundle)
    requires Listed(a) && Listed(b) && SamePayload(a, b)
    ensures Payload(Ordered(a)) == Payload(Ordered(b))
  {
    PayloadsOnDisk(a);
    PayloadsOnDisk(b);
    var x, y := Payload(Ordered(a)), Payload(Ordered(b));
    forall i | 0 <= i < |x|
      ensures x[i] in y
    {
      PayloadsHave(a, x[i]);
      PayloadsHave(b, x[i]);
    }
    forall i | 0 <= i < |y|
      ensures y[i] in x
    {
      PayloadsHave(a, y[i]);
      PayloadsHave(b, y[i]);
    }
    OneOrder(x, y);
  }
}
