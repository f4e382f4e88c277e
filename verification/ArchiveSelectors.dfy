/** Archive payload selectors: parsing, matching, and the canonical form of a list. */
module ArchiveSelectors {
  import opened Wrappers
  import opened TextOrder

  datatype ArchivePath = ArchivePath(value: string, parts: seq<string>, isDirectory: bool)

  // ------------------------------------------------------------------ parsing

  /** Unicode category Cc. */
  predicate IsControl(c: char) { (c as int) < 0x20 || 0x7f <= (c as int) <= 0x9f }

  predicate HasDrivePrefix(s: string) {
    |s| >= 3 && ('A' <= s[0] <= 'Z' || 'a' <= s[0] <= 'z') && s[1] == ':' && s[2] == '/'
  }

  function Split(s: string): (r: seq<string>)
    ensures |r| >= 1
  {
    if s == [] then [[]]
    else
      var rest := Split(s[1..]);
      if s[0] == '/' then [[]] + rest else [[s[0]] + rest[0]] + rest[1..]
  }

  function Join(parts: seq<string>): string
    requires |parts| >= 1
  {
    if |parts| == 1 then parts[0] else parts[0] + "/" + Join(parts[1..])
  }

  lemma {:induction false} JoinSplit(s: string)
    ensures Join(Split(s)) == s
  {
    if s != [] {
      JoinSplit(s[1..]);
      var rest := Split(s[1..]);
      assert s == [s[0]] + s[1..];
      if s[0] == '/' {
        assert Split(s)[1..] == rest;
      } else {
        assert Split(s)[1..] == rest[1..];
      }
    }
  }

  predicate HasBadPart(parts: seq<string>) {
    exists i :: 0 <= i < |parts| && (parts[i] == [] || parts[i] == "." || parts[i] == "..")
  }

  /** parse_archive_path; `None` where it raises. */
  function Parse(value: string): Option<ArchivePath> {
    if value == [] || (exists i :: 0 <= i < |value| && IsControl(value[i])) || '\\' in value || value[0] == '/'
       || HasDrivePrefix(value) then None
    else
      var isDirectory := value[|value| - 1] == '/';
      var path := if isDirectory then value[..|value| - 1] else value;
      if path == [] || path[|path| - 1] == '/' then None
      else
        var parts := Split(path);
        if HasBadPart(parts) then None
        else Some(ArchivePath(value, parts, isDirectory))
  }

  /** A path is determined by its parts and its kind: parsing never merges two spellings. */
  lemma ParseInjective(a: string, b: string)
    requires Parse(a).Some? && Parse(b).Some?
    requires Parse(a).value.parts == Parse(b).value.parts && Parse(a).value.isDirectory == Parse(b).value.isDirectory
    ensures a == b
  {
    var d := Parse(a).value.isDirectory;
    var x, y := if d then a[..|a| - 1] else a, if d then b[..|b| - 1] else b;
    JoinSplit(x);
    JoinSplit(y);
    if d { assert a == x + "/" && b == y + "/"; }
  }

  /** A component a path may have. */
  predicate Proper(part: string) {
    && part != "" && part != "." && part != ".." && '/' !in part && '\\' !in part
    && forall i :: 0 <= i < |part| ==> !IsControl(part[i])
  }

  predicate AllProper(parts: seq<string>) { parts != [] && forall i :: 0 <= i < |parts| ==> Proper(parts[i]) }

  function Spelling(parts: seq<string>, isDirectory: bool): string
    requires parts != []
  {
    Join(parts) + (if isDirectory then "/" else "")
  }

  /** A single letter and a colon as the first of several components, or as a directory. */
  predicate DriveLike(parts: seq<string>, isDirectory: bool)
    requires parts != []
  {
    (|parts| > 1 || isDirectory) && |parts[0]| == 2 && parts[0][1] == ':'
    && ('A' <= parts[0][0] <= 'Z' || 'a' <= parts[0][0] <= 'z')
  }

  lemma {:induction false} SplitParts(s: string, i: nat, c: char)
    requires i < |Split(s)|
    ensures '/' !in Split(s)[i] && (c in Split(s)[i] ==> c in s)
  {
    if s != [] {
      var rest := Split(s[1..]);
      if s[0] == '/' {
        if i > 0 { SplitParts(s[1..], i - 1, c); }
      } else {
        SplitParts(s[1..], i, c);
      }
    }
  }

  lemma {:induction false} SplitJoin(parts: seq<string>)
    requires parts != [] && forall i :: 0 <= i < |parts| ==> '/' !in parts[i]
    ensures Split(Join(parts)) == parts
    decreases |parts|, |parts[0]|
  {
    var s, first := Join(parts), parts[0];
    if first == [] {
      if |parts| > 1 {
        assert s[0] == '/' && s[1..] == Join(parts[1..]);
        SplitJoin(parts[1..]);
      }
    } else {
      var shorter := [first[1..]] + parts[1..];
      assert first[0] in first;
      assert s[0] == first[0] && s[1..] == Join(shorter) by { assert shorter[1..] == parts[1..]; }
      forall i | 0 <= i < |shorter| ensures '/' !in shorter[i] { assert i > 0 ==> shorter[i] == parts[i]; assert '/' !in parts[0]; }
      SplitJoin(shorter);
      assert first == [first[0]] + shorter[0] && shorter[1..] == parts[1..] && parts == [first] + parts[1..];
    }
  }

  lemma {:induction false} JoinChars(parts: seq<string>, c: char)
    requires parts != []
    ensures c in Join(parts) ==> c == '/' || exists i :: 0 <= i < |parts| && c in parts[i]
    ensures forall i :: 0 <= i < |parts| && c in parts[i] ==> c in Join(parts)
  {
    if |parts| > 1 {
      JoinChars(parts[1..], c);
      assert forall i :: 0 < i < |parts| ==> parts[i] == parts[1..][i - 1];
    }
  }

  lemma JoinEnds(parts: seq<string>)
    requires AllProper(parts)
    ensures var s := Join(parts); s != [] && s[0] == parts[0][0] && s[|s| - 1] != '/'
    decreases |parts|
  {
    assert Proper(parts[0]);
    assert parts[0][|parts[0]| - 1] in parts[0];
    if |parts| > 1 {
      assert forall i :: 0 <= i < |parts| - 1 ==> parts[1..][i] == parts[i + 1];
      JoinEnds(parts[1..]);
    }
  }

  lemma DriveBySpelling(parts: seq<string>, isDirectory: bool)
    requires AllProper(parts)
    ensures HasDrivePrefix(Spelling(parts, isDirectory)) <==> DriveLike(parts, isDirectory)
  {
    var first, s := parts[0], Spelling(parts, isDirectory);
    assert Proper(first);
    assert forall i :: 0 <= i < |first| ==> s[i] == first[i] && first[i] in first;
    if |parts| > 1 || isDirectory { assert s[|first|] == '/'; }
  }

  /** Parsing and spelling are inverse: exactly the spellings of proper components are accepted,
      and each is read as those components. */
  lemma ParseExactly(v: string, p: ArchivePath)
    ensures Parse(v) == Some(p) <==>
      && p.value == v && AllProper(p.parts) && v == Spelling(p.parts, p.isDirectory) && !DriveLike(p.parts, p.isDirectory)
  {
    if Parse(v) == Some(p) {
      ParsedIsProper(v);
      DriveBySpelling(p.parts, p.isDirectory);
    }
    if AllProper(p.parts) && v == Spelling(p.parts, p.isDirectory) && !DriveLike(p.parts, p.isDirectory) {
      SpelledParses(p.parts, p.isDirectory);
    }
  }

  lemma ParsedIsProper(v: string)
    requires Parse(v).Some?
    ensures AllProper(Parse(v).value.parts) && v == Spelling(Parse(v).value.parts, Parse(v).value.isDirectory)
  {
    var p := Parse(v).value;
    var path := if p.isDirectory then v[..|v| - 1] else v;
    JoinSplit(path);
    if p.isDirectory { assert v == path + "/"; }
    assert p.parts == Split(path) && !HasBadPart(p.parts);
    forall i | 0 <= i < |p.parts| ensures Proper(p.parts[i]) {
      SplitParts(path, i, '\\');
      forall j | 0 <= j < |p.parts[i]| ensures !IsControl(p.parts[i][j]) {
        SplitParts(path, i, p.parts[i][j]);
      }
    }
  }

  lemma SpelledParses(parts: seq<string>, isDirectory: bool)
    requires AllProper(parts) && !DriveLike(parts, isDirectory)
    ensures Parse(Spelling(parts, isDirectory)) == Some(ArchivePath(Spelling(parts, isDirectory), parts, isDirectory))
  {
    var path, v := Join(parts), Spelling(parts, isDirectory);
    assert forall i :: 0 <= i < |parts| ==> Proper(parts[i]);
    JoinEnds(parts);
    SplitJoin(parts);
    DriveBySpelling(parts, isDirectory);
    JoinChars(parts, '\\');
    forall i | 0 <= i < |v| ensures !IsControl(v[i]) {
      if v[i] != '/' {
        assert v[i] in path;
        JoinChars(parts, v[i]);
        var k :| 0 <= k < |parts| && v[i] in parts[k];
        var j :| 0 <= j < |parts[k]| && parts[k][j] == v[i];
      }
    }
    assert v[0] == parts[0][0] && parts[0][0] in parts[0];
    assert !HasBadPart(parts);
    assert (if isDirectory then v[..|v| - 1] else v) == path;
  }

  // ----------------------------------------------------------------- matching

  predicate IsPrefix(a: seq<string>, b: seq<string>) { |a| <= |b| && b[..|a|] == a }

  predicate Matches(s: ArchivePath, p: ArchivePath) {
    if !s.isDirectory then !p.isDirectory && s.parts == p.parts
    else IsPrefix(s.parts, p.parts) && (|p.parts| > |s.parts| || p.isDirectory)
  }

  /** Matching is a matter of spelling: a file selector matches exactly itself, and a directory
      selector exactly the paths whose text it begins. */
  lemma MatchesBySpelling(a: string, b: string)
    requires Parse(a).Some? && Parse(b).Some?
    ensures Matches(Parse(a).value, Parse(b).value) <==> if Parse(a).value.isDirectory then a <= b else a == b
  {
    var s, p := Parse(a).value, Parse(b).value;
    ParsedIsProper(a);
    ParsedIsProper(b);
    if s.isDirectory {
      PrefixBySpelling(s.parts, p.parts, p.isDirectory);
    } else if s.parts == p.parts && !p.isDirectory {
      ParseInjective(a, b);
    }
  }

  lemma {:induction false} PrefixBySpelling(a: seq<string>, b: seq<string>, isDirectory: bool)
    requires AllProper(a) && AllProper(b)
    ensures Join(a) + "/" <= Spelling(b, isDirectory) <==> IsPrefix(a, b) && (|b| > |a| || isDirectory)
    decreases |a|
  {
    var x, y := Join(a) + "/", Spelling(b, isDirectory);
    assert Proper(a[0]) && Proper(b[0]);
    if a[0] != b[0] {
      FirstDiffers(a, b, isDirectory);
      assert |a| <= |b| ==> b[..|a|][0] == b[0];
    } else if |a| == 1 {
      assert a == [a[0]];
      if |b| == 1 { assert y == a[0] + (if isDirectory then "/" else ""); } else { assert y == x + Spelling(b[1..], isDirectory); }
    } else if |b| == 1 {
      assert x == a[0] + "/" + Join(a[1..]) + "/";
      assert |x| > |y|;
    } else {
      TailsProper(a);
      TailsProper(b);
      PrefixBySpelling(a[1..], b[1..], isDirectory);
      assert x == a[0] + "/" + (Join(a[1..]) + "/") && y == a[0] + "/" + Spelling(b[1..], isDirectory);
      PrefixCancel(a[0] + "/", Join(a[1..]) + "/", Spelling(b[1..], isDirectory));
      assert IsPrefix(a, b) <==> IsPrefix(a[1..], b[1..]) by { ConsPrefix(a, b); }
    }
  }

  lemma TailsProper(a: seq<string>)
    requires AllProper(a) && |a| > 1
    ensures AllProper(a[1..])
  {
    assert forall i :: 0 <= i < |a| - 1 ==> a[1..][i] == a[i + 1];
  }

  lemma PrefixCancel(p: string, x: string, y: string)
    ensures p + x <= p + y <==> x <= y
  {
    if x <= y { assert y == x + y[|x|..]; assert p + y == p + x + y[|x|..]; }
    if p + x <= p + y { assert y == (p + y)[|p|..] && x == (p + x)[|p|..]; }
  }

  lemma ConsPrefix(a: seq<string>, b: seq<string>)
    requires a != [] && b != [] && a[0] == b[0]
    ensures IsPrefix(a, b) <==> IsPrefix(a[1..], b[1..])
  {
    assert a == [a[0]] + a[1..] && b == [b[0]] + b[1..];
    if |a| <= |b| { assert b[..|a|] == [b[0]] + b[1..][..|a| - 1]; }
  }

  lemma FirstDiffers(a: seq<string>, b: seq<string>, isDirectory: bool)
    requires AllProper(a) && AllProper(b) && a[0] != b[0]
    ensures !(Join(a) + "/" <= Spelling(b, isDirectory))
  {
    var x, y, f, g := Join(a) + "/", Spelling(b, isDirectory), a[0], b[0];
    assert Proper(f) && Proper(g);
    assert forall i :: 0 <= i < |f| ==> x[i] == f[i] && f[i] in f;
    assert forall i :: 0 <= i < |g| ==> y[i] == g[i] && g[i] in g;
    assert x[|f|] == '/' && (|y| > |g| ==> y[|g|] == '/');
    if |f| == |g| {
      var i :| 0 <= i < |f| && f[i] != g[i];
      assert x[i] != y[i];
    } else if |f| < |g| {
      assert x[|f|] != y[|f|];
    } else {
      assert |y| > |g| ==> x[|g|] != y[|g|];
    }
  }

  /** Two lists select the same inventory paths. */
  ghost predicate SameMatches(a: seq<string>, b: seq<string>) {
    forall q :: Parse(q).Some? ==> (SelectorsMatch(a, Parse(q).value) <==> SelectorsMatch(b, Parse(q).value))
  }

  ghost predicate SelectorsMatch(selectors: seq<string>, p: ArchivePath) {
    exists v :: v in selectors && Parse(v).Some? && Matches(Parse(v).value, p)
  }

  // ----------------------------------------------------------- the normal form

  predicate AllParse(values: seq<string>) { forall v :: v in values ==> Parse(v).Some? }

  /** No list names the same parts both as a file and as a directory. */
  predicate NoConflict(values: seq<string>)
    requires AllParse(values)
  {
    forall v, w :: v in values && w in values && Parse(v).value.parts == Parse(w).value.parts ==>
      Parse(v).value.isDirectory == Parse(w).value.isDirectory
  }

  predicate Accepted(values: seq<string>) { AllParse(values) && NoConflict(values) }

  predicate Covered(values: seq<string>, v: string)
    requires AllParse(values) && v in values
  {
    exists d :: d in values && Parse(d).value.isDirectory
                && IsPrefix(Parse(d).value.parts, Parse(v).value.parts) && |Parse(d).value.parts| < |Parse(v).value.parts|
  }

  /** The values no listed directory covers. */
  function Retained(values: seq<string>): set<string>
    requires AllParse(values)
  {
    set v | v in values && !Covered(values, v)
  }

  ghost predicate IsCanonical(values: seq<string>, r: seq<string>) {
    Accepted(values) && Sorted(r) && Elements(r) == Retained(values)
  }

  /** Every value is retained or lies below a retained directory. */
  lemma {:induction false} Root(values: seq<string>, v: string) returns (r: string)
    requires AllParse(values) && v in values
    ensures r in Retained(values)
    ensures r == v || (Parse(r).value.isDirectory && IsPrefix(Parse(r).value.parts, Parse(v).value.parts)
                       && |Parse(r).value.parts| < |Parse(v).value.parts|)
    decreases |Parse(v).value.parts|
  {
    if Covered(values, v) {
      var d :| d in values && Parse(d).value.isDirectory && IsPrefix(Parse(d).value.parts, Parse(v).value.parts)
               && |Parse(d).value.parts| < |Parse(v).value.parts|;
      r := Root(values, d);
      PrefixTransitive(Parse(r).value.parts, Parse(d).value.parts, Parse(v).value.parts);
    } else {
      r := v;
    }
  }

  lemma PrefixTransitive(a: seq<string>, b: seq<string>, c: seq<string>)
    requires IsPrefix(a, b) && IsPrefix(b, c)
    ensures IsPrefix(a, c)
  {
    assert c[..|a|] == c[..|b|][..|a|];
  }

  /** Normalising keeps exactly the matched paths. */
  lemma MatchesKept(values: seq<string>, r: seq<string>, p: ArchivePath)
    requires IsCanonical(values, r)
    ensures SelectorsMatch(r, p) <==> SelectorsMatch(values, p)
  {
    if SelectorsMatch(values, p) {
      var v :| v in values && Parse(v).Some? && Matches(Parse(v).value, p);
      var root := Root(values, v);
      assert root in Elements(r);
      if root != v { PrefixTransitive(Parse(root).value.parts, Parse(v).value.parts, p.parts); }
    }
    if SelectorsMatch(r, p) {
      var v :| v in r && Parse(v).Some? && Matches(Parse(v).value, p);
      assert v in Elements(r);
    }
  }

  lemma RetainedWithin(a: seq<string>, b: seq<string>, v: string)
    requires AllParse(a) && AllParse(b) && v in Retained(a)
    requires SameMatches(a, b)
    ensures v in b
  {
    hide Parse;
    var p := Parse(v).value;
    assert Matches(p, p);
    assert SelectorsMatch(a, p);
    var w :| w in b && Parse(w).Some? && Matches(Parse(w).value, p);
    var q := Parse(w).value;
    if q.parts == p.parts {
      ParseInjective(v, w);
    } else {
      assert Matches(q, q);
      assert SelectorsMatch(b, q);
      var u :| u in a && Parse(u).Some? && Matches(Parse(u).value, q);
      PrefixTransitive(Parse(u).value.parts, q.parts, p.parts);
      assert false;
    }
  }

  /** The normal form is complete: two accepted lists have the same normal form exactly when
      they match the same paths. */
  lemma CanonicalComplete(a: seq<string>, b: seq<string>, ra: seq<string>, rb: seq<string>)
    requires IsCanonical(a, ra) && IsCanonical(b, rb)
    ensures ra == rb <==> SameMatches(a, b)
  {
    hide Parse, Sorted;
    if ra == rb {
      forall q | Parse(q).Some? ensures SelectorsMatch(a, Parse(q).value) <==> SelectorsMatch(b, Parse(q).value) {
        MatchesKept(a, ra, Parse(q).value);
        MatchesKept(b, rb, Parse(q).value);
      }
    }
    if SameMatches(a, b) {
      assert Elements(ra) == Elements(rb) by {
        RetainedEqual(a, b);
      }
      SortedUnique(ra, rb);
    }
  }

  lemma RetainedEqual(a: seq<string>, b: seq<string>)
    requires AllParse(a) && AllParse(b)
    requires SameMatches(a, b)
    ensures Retained(a) == Retained(b)
  {
    hide Parse;
    forall v | v in Retained(a) ensures v in Retained(b) { RetainedBoth(a, b, v); }
    forall v | v in Retained(b) ensures v in Retained(a) { RetainedBoth(b, a, v); }
  }

  lemma RetainedBoth(a: seq<string>, b: seq<string>, v: string)
    requires AllParse(a) && AllParse(b) && v in Retained(a)
    requires SameMatches(a, b)
    ensures v in Retained(b)
  {
    hide Parse;
    RetainedWithin(a, b, v);
    var r := Root(b, v);
    if r != v {
      RetainedWithin(b, a, r);
      assert false;
    }
  }

  /** Order and duplicates do not matter, and normalising twice changes nothing. */
  lemma CanonicalStable(a: seq<string>, b: seq<string>, ra: seq<string>, rb: seq<string>, again: seq<string>)
    requires IsCanonical(a, ra)
    ensures Elements(a) == Elements(b) && IsCanonical(b, rb) ==> ra == rb
    ensures Accepted(ra) && IsCanonical(ra, ra)
    ensures IsCanonical(ra, again) ==> again == ra
  {
    hide Parse;
    assert forall v :: v in ra <==> v in Elements(ra);
    assert forall v :: v in a <==> v in Elements(a);
    if Elements(a) == Elements(b) && IsCanonical(b, rb) {
      assert forall v :: v in b <==> v in Elements(b);
      assert SameMatches(a, b);
      CanonicalComplete(a, b, ra, rb);
    }
    assert Retained(ra) == Elements(ra) by {
      forall v | v in ra ensures !Covered(ra, v) { assert v in Retained(a); }
    }
    if IsCanonical(ra, again) { SortedUnique(ra, again); }
  }

  // ------------------------------------------------------------ the procedure

  /** The first kind seen for every list of parts, or a conflict. */
  method FirstKinds(parsed: seq<ArchivePath>) returns (ok: bool)
    ensures ok <==> forall i, j :: 0 <= i < |parsed| && 0 <= j < |parsed| && parsed[i].parts == parsed[j].parts ==>
                      parsed[i].isDirectory == parsed[j].isDirectory
  {
    var kinds: map<seq<string>, bool> := map[];
    for i := 0 to |parsed|
      invariant forall j :: 0 <= j < i ==> parsed[j].parts in kinds && kinds[parsed[j].parts] == parsed[j].isDirectory
      invariant forall k :: k in kinds ==> exists j :: 0 <= j < i && parsed[j].parts == k
    {
      if parsed[i].parts in kinds {
        if kinds[parsed[i].parts] != parsed[i].isDirectory { return false; }
      } else {
        kinds := kinds[parsed[i].parts := parsed[i].isDirectory];
      }
    }
    return true;
  }

  method ParseAll(values: seq<string>) returns (parsed: Option<seq<ArchivePath>>)
    ensures parsed.Some? <==> AllParse(values)
    ensures parsed.Some? ==> |parsed.value| == |values|
                             && forall i :: 0 <= i < |values| ==> Parse(values[i]) == Some(parsed.value[i])
  {
    var paths: seq<ArchivePath> := [];
    for i := 0 to |values|
      invariant |paths| == i && forall j :: 0 <= j < i ==> Parse(values[j]) == Some(paths[j])
    {
      var p := Parse(values[i]);
      if p.None? { return None; }
      paths := paths + [p.value];
    }
    return Some(paths);
  }

  /** Does a listed directory lie strictly above these parts? */
  method AnyAbove(directories: set<seq<string>>, parts: seq<string>) returns (above: bool)
    ensures above <==> exists d :: d in directories && 1 <= |d| < |parts| && IsPrefix(d, parts)
  {
    if parts == [] { return false; }
    for depth := 1 to |parts|
      invariant forall k :: 1 <= k < depth ==> parts[..k] !in directories
    {
      if parts[..depth] in directories {
        assert IsPrefix(parts[..depth], parts);
        return true;
      }
    }
    return false;
  }

  lemma PartsNonEmpty(v: string)
    requires Parse(v).Some?
    ensures |Parse(v).value.parts| >= 1 && Parse(v).value.value == v
  {
  }

  /** _canonical_selectors: `None` where it raises, else the sorted uncovered values. */
  method CanonicalSelectors(values: seq<string>) returns (r: Option<seq<string>>)
    ensures r.Some? <==> Accepted(values)
    ensures r.Some? ==> IsCanonical(values, r.value)
  {
    hide Parse;
    var parsed := ParseAll(values);
    if parsed.None? { return None; }
    var consistent := FirstKinds(parsed.value);
    assert consistent <==> NoConflict(values) by {
      forall i | 0 <= i < |values| ensures values[i] in values && Parse(values[i]).value == parsed.value[i] {}
      if consistent {
        forall v, w | v in values && w in values && Parse(v).value.parts == Parse(w).value.parts
          ensures Parse(v).value.isDirectory == Parse(w).value.isDirectory
        {
          var i :| 0 <= i < |values| && values[i] == v;
          var j :| 0 <= j < |values| && values[j] == w;
        }
      }
    }
    if !consistent { return None; }
    var unique: seq<ArchivePath> := [];
    var seen: set<string> := {};
    var directories: set<seq<string>> := {};
    for i := 0 to |parsed.value|
      invariant seen == set j | 0 <= j < i :: values[j]
      invariant forall p :: p in unique ==> p.value in seen && Parse(p.value) == Some(p)
      invariant forall v :: v in seen ==> v in values && Parse(v).value in unique
      invariant forall d :: d in directories <==> exists v :: v in seen && Parse(v).value.isDirectory && Parse(v).value.parts == d
    {
      var path := parsed.value[i];
      PartsNonEmpty(values[i]);
      assert path == Parse(values[i]).value;
      if path.value !in seen {
        unique, seen := unique + [path], seen + {path.value};
        if path.isDirectory { directories := directories + {path.parts}; }
      }
    }
    assert seen == Elements(values);
    var retained: set<string> := {};
    for i := 0 to |unique|
      invariant forall v :: v in retained <==> exists j :: 0 <= j < i && unique[j].value == v && !Covered(values, v)
    {
      var above := AnyAbove(directories, unique[i].parts);
      var v := unique[i].value;
      assert v in values && Parse(v).value == unique[i];
      assert above <==> Covered(values, v) by { AboveIsCovered(values, directories, v); }
      if !above { retained := retained + {v}; }
    }
    assert retained == Retained(values) by {
      forall v | v in Retained(values) ensures v in retained {
        assert v in seen;
        var j :| 0 <= j < |unique| && unique[j] == Parse(v).value;
        PartsNonEmpty(v);
        assert unique[j].value == v;
      }
    }
    var sorted := Sort(retained);
    return Some(sorted);
  }

  lemma AboveIsCovered(values: seq<string>, directories: set<seq<string>>, v: string)
    requires AllParse(values) && v in values
    requires forall d :: d in directories <==> exists w :: w in Elements(values) && Parse(w).value.isDirectory && Parse(w).value.parts == d
    ensures Covered(values, v) <==>
            exists d :: d in directories && 1 <= |d| < |Parse(v).value.parts| && IsPrefix(d, Parse(v).value.parts)
  {
    hide Parse;
    var parts := Parse(v).value.parts;
    if Covered(values, v) {
      var w :| w in values && Parse(w).value.isDirectory && IsPrefix(Parse(w).value.parts, parts)
               && |Parse(w).value.parts| < |parts|;
      PartsNonEmpty(w);
      assert w in Elements(values);
      assert Parse(w).value.parts in directories;
    }
    if exists d :: d in directories && 1 <= |d| < |parts| && IsPrefix(d, parts) {
      var d :| d in directories && 1 <= |d| < |parts| && IsPrefix(d, parts);
      var w :| w in Elements(values) && Parse(w).value.isDirectory && Parse(w).value.parts == d;
      assert w in values;
    }
  }
}
