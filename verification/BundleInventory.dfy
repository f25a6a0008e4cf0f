/** A package's declared inventory: what makes it acceptable, and the canonical stream whose hash
    is its content id. */
module BundleInventory {
  import opened Wrappers

  datatype File = File(path: string, sha: string, size: nat, mode: string)

  datatype Bundle = Bundle(
    schema: nat, app: string, package: string, version: string, contentId: string,
    manifestPath: string, payloadSha: string, files: seq<File>)

  // ----- Fields -----

  predicate Lower(c: char) {
    'a' <= c <= 'z'
  }

  predicate Digit(c: char) {
    '0' <= c <= '9'
  }

  predicate SafeIdentifier(s: string) {
    && s != "" && |s| <= 64 && s[0] != '-' && s[|s| - 1] != '-'
    && forall i :: 0 <= i < |s| ==> Lower(s[i]) || Digit(s[i]) || s[i] == '-'
  }

  predicate LowerHex64(s: string) {
    |s| == 64 && forall i :: 0 <= i < |s| ==> Digit(s[i]) || 'a' <= s[i] <= 'f'
  }

  /** The parts of a path between its slashes. */
  function Segments(path: string): (r: seq<string>)
    ensures r != []
  {
    if path == "" then [""]
    else
      var more := Segments(path[1..]);
      if path[0] == '/' then [""] + more else [[path[0]] + more[0]] + more[1..]
  }

  function Joined(parts: seq<string>): string {
    if parts == [] then "" else if |parts| == 1 then parts[0] else parts[0] + "/" + Joined(parts[1..])
  }

  lemma JoinHead(first: string, rest: seq<string>)
    ensures Joined([first] + rest) == if rest == [] then first else first + "/" + Joined(rest)
  {
    assert ([first] + rest)[1..] == rest;
  }

  lemma JoinEmpty(more: seq<string>)
    requires more != []
    ensures Joined([""] + more) == ['/'] + Joined(more)
  {
    JoinHead("", more);
  }

  lemma Regrouped(c: char, first: string, rest: string)
    ensures ([c] + first) + "/" + rest == [c] + (first + "/" + rest)
  {
  }

  lemma JoinLonger(c: char, more: seq<string>)
    requires more != []
    ensures Joined([[c] + more[0]] + more[1..]) == [c] + Joined(more)
  {
    JoinHead([c] + more[0], more[1..]);
    JoinHead(more[0], more[1..]);
    assert [more[0]] + more[1..] == more;
    Regrouped(c, more[0], Joined(more[1..]));
  }

  /** The parts have no slash, and joined by slashes they are the path. */
  lemma {:induction false} SegmentsJoin(path: string)
    ensures Joined(Segments(path)) == path
    ensures forall i | 0 <= i < |Segments(path)| :: '/' !in Segments(path)[i]
  {
    if path != "" {
      var more := Segments(path[1..]);
      SegmentsJoin(path[1..]);
      JoinEmpty(more);
      JoinLonger(path[0], more);
      assert path == [path[0]] + path[1..];
    }
  }

  /** A path below its root; a dot inside the path is harmless, one at its front is not. */
  predicate SafeRelative(path: string) {
    path != "" && path[0] != '/' && Segments(path)[0] != "." && ".." !in Segments(path)
  }

  predicate Octal(s: string) {
    forall i :: 0 <= i < |s| ==> '0' <= s[i] <= '7'
  }

  function OctalValue(digits: string): nat
    requires Octal(digits)
  {
    if digits == "" then 0
    else OctalValue(digits[..|digits| - 1]) * 8 + (digits[|digits| - 1] as int - '0' as int)
  }

  /** Four characters, an octal number or a plus sign before one; no special bits, nobody else may
      write, and the owner may read. */
  function ParseMode(s: string): Option<nat> {
    if |s| != 4 then None
    else
      var digits := if s[0] == '+' then s[1..] else s;
      if !Octal(digits) then None
      else
        var mode := OctalValue(digits);
        if mode < 512 && mode / 16 % 2 == 0 && mode / 2 % 2 == 0 && mode / 256 % 2 == 1 then Some(mode) else None
  }

  predicate DigitIn(c: char, low: char, high: char) {
    low <= c <= high
  }

  /** Nobody but the owner may write: a digit without the write bit. */
  predicate NoWrite(c: char) {
    c in {'0', '1', '4', '5'}
  }

  lemma OctalOfThree(s: string)
    requires |s| == 3 && Octal(s)
    ensures OctalValue(s) == (s[0] as int - 48) * 64 + (s[1] as int - 48) * 8 + (s[2] as int - 48)
  {
    assert s[..2][..1][..0] == "" && s[..2][1] == s[1] && s[..2][..1][0] == s[0];
    assert OctalValue(s[..2][..1]) == s[0] as int - 48;
    assert OctalValue(s[..2]) == (s[0] as int - 48) * 8 + (s[1] as int - 48);
  }

  lemma OctalOfFour(s: string)
    requires |s| == 4 && Octal(s)
    ensures OctalValue(s) == (s[0] as int - 48) * 512 + (s[1] as int - 48) * 64 + (s[2] as int - 48) * 8 + (s[3] as int - 48)
  {
    OctalOfThree(s[..3]);
  }

  lemma OwnerBit(a: int, rest: int)
    requires 0 <= a < 8 && 0 <= rest < 64
    ensures (a * 64 + rest) / 256 % 2 == 1 <==> a >= 4
  {
  }

  lemma GroupBit(a: int, b: int, c: int)
    requires 0 <= a < 8 && 0 <= b < 8 && 0 <= c < 8
    ensures (a * 64 + b * 8 + c) / 16 % 2 == 0 <==> b in {0, 1, 4, 5}
  {
    assert (a * 64 + b * 8 + c) / 16 == a * 4 + b / 2;
  }

  lemma OthersBit(ab: int, c: int)
    requires 0 <= ab && 0 <= c < 8
    ensures (ab * 8 + c) / 2 % 2 == 0 <==> c in {0, 1, 4, 5}
  {
    assert (ab * 8 + c) / 2 == ab * 4 + c / 2;
  }

  lemma BitsOf(a: int, b: int, c: int)
    requires 0 <= a < 8 && 0 <= b < 8 && 0 <= c < 8
    ensures var mode := a * 64 + b * 8 + c;
            && (mode / 256 % 2 == 1 <==> a >= 4)
            && (mode / 16 % 2 == 0 <==> b in {0, 1, 4, 5})
            && (mode / 2 % 2 == 0 <==> c in {0, 1, 4, 5})
  {
    OwnerBit(a, b * 8 + c);
    GroupBit(a, b, c);
    OthersBit(a * 8 + b, c);
  }

  /** The modes that are accepted, digit by digit: a zero or a plus sign, then what the owner may do,
      reading included, then the group and the others, neither of whom may write. */
  lemma ModeExactly(s: string)
    ensures ParseMode(s).Some? <==>
              |s| == 4 && s[0] in {'0', '+'} && DigitIn(s[1], '4', '7') && NoWrite(s[2]) && NoWrite(s[3])
    ensures ParseMode(s).Some? ==>
              ParseMode(s).value == (s[1] as int - 48) * 64 + (s[2] as int - 48) * 8 + (s[3] as int - 48)
  {
    if |s| == 4 {
      var digits := if s[0] == '+' then s[1..] else s;
      if Octal(digits) {
        if s[0] == '+' {
          OctalOfThree(digits);
        } else {
          OctalOfFour(digits);
          assert digits[1] == s[1] && digits[2] == s[2] && digits[3] == s[3];
        }
        assert '0' <= s[1] <= '7' && '0' <= s[2] <= '7' && '0' <= s[3] <= '7';
        BitsOf(s[1] as int - 48, s[2] as int - 48, s[3] as int - 48);
      }
    }
  }

  predicate Whitespace(c: char) {
    var n := c as int;
    || 9 <= n <= 13 || n == 0x20 || n == 0x85 || n == 0xA0 || n == 0x1680 || 0x2000 <= n <= 0x200A
    || n == 0x2028 || n == 0x2029 || n == 0x202F || n == 0x205F || n == 0x3000
  }

  /** White space as Unicode has it. */
  lemma WhitespaceExactly(c: char)
    ensures Whitespace(c) <==>
              c as int in {0x9, 0xA, 0xB, 0xC, 0xD, 0x20, 0x85, 0xA0, 0x1680, 0x2000, 0x2001, 0x2002, 0x2003, 0x2004,
                           0x2005, 0x2006, 0x2007, 0x2008, 0x2009, 0x200A, 0x2028, 0x2029, 0x202F, 0x205F, 0x3000}
  {
  }

  predicate Blank(s: string) {
    forall i :: 0 <= i < |s| ==> Whitespace(s[i])
  }

  predicate EntrySound(f: File) {
    SafeRelative(f.path) && f.path != "bundle.json" && LowerHex64(f.sha) && ParseMode(f.mode).Some?
  }

  predicate DistinctPaths(files: seq<File>) {
    forall i, j :: 0 <= i < j < |files| ==> files[i].path != files[j].path
  }

  predicate Acceptable(b: Bundle) {
    && b.schema == 1 && SafeIdentifier(b.app) && SafeIdentifier(b.package) && !Blank(b.version)
    && LowerHex64(b.contentId) && LowerHex64(b.payloadSha) && b.manifestPath == "manifest.toml"
    && (forall i :: 0 <= i < |b.files| ==> EntrySound(b.files[i]))
    && DistinctPaths(b.files)
    && exists i :: 0 <= i < |b.files| && b.files[i].path == b.manifestPath
  }

  /** How far below its root a walk along the parts ends; it fails where it would rise above it. */
  function Depth(parts: seq<string>): Option<nat> {
    if parts == [] then Some(0)
    else
      var last := parts[|parts| - 1];
      match Depth(parts[..|parts| - 1])
      case None => None
      case Some(d) =>
        if last == "" || last == "." then Some(d)
        else if last == ".." then if d == 0 then None else Some(d - 1)
        else Some(d + 1)
  }

  lemma {:induction false} NeverRises(parts: seq<string>)
    requires ".." !in parts
    ensures Depth(parts).Some?
  {
    if parts != [] {
      NeverRises(parts[..|parts| - 1]);
    }
  }

  predicate Unpackable(f: File) {
    && f.path != "" && f.path[0] != '/' && Depth(Segments(f.path)).Some? && ".." !in Segments(f.path)
    && Segments(f.path)[0] != "." && f.path != "bundle.json"
    && |f.mode| == 4 && NoWrite(f.mode[2]) && NoWrite(f.mode[3]) && DigitIn(f.mode[1], '4', '7')
    && Hexadecimal(f.sha)
  }

  predicate Hexadecimal(s: string) {
    |s| == 64 && forall i | 0 <= i < 64 :: s[i] in "0123456789abcdef"
  }

  predicate Identifying(s: string) {
    && 1 <= |s| <= 64 && s[0] != '-' && s[|s| - 1] != '-'
    && forall i | 0 <= i < |s| :: s[i] in "abcdefghijklmnopqrstuvwxyz0123456789-"
  }

  lemma EntryMeans(f: File)
    requires EntrySound(f)
    ensures Unpackable(f)
  {
    NeverRises(Segments(f.path));
    ModeExactly(f.mode);
    HexIs(f.sha);
  }

  lemma AcceptableFiles(b: Bundle, f: File)
    requires Acceptable(b) && f in b.files
    ensures EntrySound(f)
  {
  }

  /** What acceptance promises whoever unpacks the package: no path leaves its directory or repeats, the
      inventory does not list itself but does list the manifest, each mode is one under which nobody
      but the owner can write, and the names and hashes are what they should be. */
  lemma AcceptableMeans(b: Bundle, f: File)
    requires Acceptable(b)
    ensures f in b.files ==> Unpackable(f)
    ensures exists i | 0 <= i < |b.files| :: b.files[i].path == "manifest.toml"
    ensures DistinctPaths(b.files) && b.schema == 1 && b.manifestPath == "manifest.toml"
    ensures exists i | 0 <= i < |b.version| :: !Whitespace(b.version[i])
    ensures Identifying(b.app) && Identifying(b.package) && Hexadecimal(b.contentId) && Hexadecimal(b.payloadSha)
  {
    if f in b.files {
      AcceptableFiles(b, f);
      EntryMeans(f);
    }
    HexIs(b.contentId);
    HexIs(b.payloadSha);
    IdentifierIs(b.app);
    IdentifierIs(b.package);
  }

  lemma HexIs(s: string)
    requires LowerHex64(s)
    ensures Hexadecimal(s)
  {
    forall i | 0 <= i < 64
      ensures s[i] in "0123456789abcdef"
    {
      var t := "0123456789abcdef";
      assert forall k | 0 <= k < 10 :: t[k] == ('0' as int + k) as char;
      assert forall k | 10 <= k < 16 :: t[k] == ('a' as int + k - 10) as char;
      assert t[if Digit(s[i]) then s[i] as int - '0' as int else s[i] as int - 'a' as int + 10] == s[i];
    }
  }

  lemma IdentifierIs(s: string)
    requires SafeIdentifier(s)
    ensures Identifying(s)
  {
    forall i | 0 <= i < |s|
      ensures s[i] in "abcdefghijklmnopqrstuvwxyz0123456789-"
    {
      var t := "abcdefghijklmnopqrstuvwxyz0123456789-";
      assert forall k | 0 <= k < 26 :: t[k] == ('a' as int + k) as char;
      assert forall k | 26 <= k < 36 :: t[k] == ('0' as int + k - 26) as char;
      assert t[36] == '-';
      assert t[if Lower(s[i]) then s[i] as int - 'a' as int
               else if Digit(s[i]) then s[i] as int - '0' as int + 26 else 36] == s[i];
    }
  }

  datatype Fault = Schema | Identity | Metadata | Entry(path: string) | NoManifest

  function Paths(files: seq<File>): set<string> {
    set i | 0 <= i < |files| :: files[i].path
  }

  predicate Repeats(files: seq<File>, i: nat)
    requires i < |files|
  {
    exists j | 0 <= j < i :: files[j].path == files[i].path
  }

  /** The entry at `i` is at fault, by itself or by repeating an earlier path. */
  predicate Faulty(files: seq<File>, i: nat)
    requires i < |files|
  {
    !EntrySound(files[i]) || Repeats(files, i)
  }

  lemma PathsOfOneMore(files: seq<File>, n: nat)
    requires n < |files|
    ensures Paths(files[..n + 1]) == Paths(files[..n]) + {files[n].path}
    ensures files[n].path in Paths(files[..n]) <==> Repeats(files, n)
  {
    var before, more := files[..n], files[..n + 1];
    assert more == before + [files[n]];
    assert more[n].path in Paths(more);
    forall p | p in Paths(before)
      ensures p in Paths(more)
    {
      var i :| 0 <= i < n && before[i].path == p;
      assert more[i].path == p;
    }
    if Repeats(files, n) {
      var j :| 0 <= j < n && files[j].path == files[n].path;
      assert before[j].path in Paths(before);
    }
  }

  predicate FaultFree(files: seq<File>, n: nat)
    requires n <= |files|
  {
    n == 0 || (FaultFree(files, n - 1) && !Faulty(files, n - 1))
  }

  lemma {:induction false} FaultFreeMeans(files: seq<File>, n: nat)
    requires n <= |files|
    ensures FaultFree(files, n) <==> forall i :: 0 <= i < n ==> !Faulty(files, i)
  {
    if n > 0 {
      FaultFreeMeans(files, n - 1);
      assert FaultFree(files, n) <==> FaultFree(files, n - 1) && !Faulty(files, n - 1);
    }
  }

  /** Walks over the inventory and stops at its first entry at fault. */
  method ValidateEntries(files: seq<File>) returns (fault: Option<nat>, paths: set<string>)
    ensures fault.None? ==> paths == Paths(files) && forall i :: 0 <= i < |files| ==> !Faulty(files, i)
    ensures fault.Some? ==> fault.value < |files| && Faulty(files, fault.value) &&
                            forall j :: 0 <= j < fault.value ==> !Faulty(files, j)
  {
    paths := {};
    for n := 0 to |files|
      invariant FaultFree(files, n)
      invariant paths == Paths(files[..n])
    {
      var f := files[n];
      PathsOfOneMore(files, n);
      if !EntrySound(f) || f.path in paths {
        FaultFreeMeans(files, n);
        return Some(n), paths;
      }
      paths := paths + {f.path};
    }
    FaultFreeMeans(files, |files|);
    assert files[..|files|] == files;
    return None, paths;
  }

  lemma RepeatIsFaulty(files: seq<File>)
    ensures (forall i :: 0 <= i < |files| ==> !Faulty(files, i)) <==>
              DistinctPaths(files) && forall i :: 0 <= i < |files| ==> EntrySound(files[i])
  {
    if forall i :: 0 <= i < |files| ==> !Faulty(files, i) {
      forall i, j | 0 <= i < j < |files|
        ensures files[i].path != files[j].path
      {
        assert !Faulty(files, j) && !Repeats(files, j);
      }
      forall i | 0 <= i < |files|
        ensures EntrySound(files[i])
      {
        assert !Faulty(files, i);
      }
    }
  }

  /** Accepts exactly the acceptable bundles. */
  method ValidateBundle(b: Bundle) returns (fault: Option<Fault>)
    ensures fault.None? <==> Acceptable(b)
  {
    if b.schema != 1 {
      return Some(Schema);
    }
    if !SafeIdentifier(b.app) || !SafeIdentifier(b.package) {
      return Some(Identity);
    }
    if Blank(b.version) || !LowerHex64(b.contentId) || !LowerHex64(b.payloadSha)
       || b.manifestPath != "manifest.toml" || b.files == [] {
      return Some(Metadata);
    }
    RepeatIsFaulty(b.files);
    var faulty, paths := ValidateEntries(b.files);
    if faulty.Some? {
      return Some(Entry(b.files[faulty.value].path));
    }
    if b.manifestPath !in paths {
      return Some(NoManifest);
    }
    return None;
  }
}
