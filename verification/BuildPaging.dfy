/**
  Paging over a template's builds: the query orders on the uuid but filters the
  cursor on its text. Both orders agree, so the walk misses and repeats nothing.
 */
module BuildPaging {
  import opened Common
  import opened Keyset
  import opened Lexicographic

  // ---------- UUID values and their text ----------

  type Byte = n: nat | n < 256

  type Uuid = u: seq<Byte> | |u| == 16 witness [0, 0, 0, 0, 0, 0, 0, 0, 0, 0, 0, 0, 0, 0, 0, 0]

  predicate ByteLess(a: Byte, b: Byte) { a < b }

  /** PostgreSQL compares uuids byte by byte. */
  predicate UuidLess(a: Uuid, b: Uuid) { LexLess(ByteLess, a, b) }

  /** Lowercase hexadecimal digit. */
  function HexDigit(n: nat): char
    requires n < 16
  {
    "0123456789abcdef"[n]
  }

  function ByteText(b: Byte): string { [HexDigit(b / 16), HexDigit(b % 16)] }

  /** A hyphen stands before the bytes 4, 6, 8 and 10: the form 8-4-4-4-12 of section 4 of RFC 9562. */
  function Hyphen(i: int): string { if i == 4 || i == 6 || i == 8 || i == 10 then "-" else "" }

  /** The text of the last `|t|` bytes of a uuid. */
  function TailText(t: seq<Byte>): string {
    if t == [] then "" else Hyphen(16 - |t|) + (ByteText(t[0]) + TailText(t[1..]))
  }

  function UuidText(u: Uuid): string { TailText(u) }

  /** Two lowercase hexadecimal digits for each byte. */
  function Hex(bytes: seq<Byte>): string {
    if bytes == [] then "" else ByteText(bytes[0]) + Hex(bytes[1..])
  }

  lemma {:induction false} HexDigits(bytes: seq<Byte>)
    ensures |Hex(bytes)| == 2 * |bytes|
    ensures forall i :: 0 <= i < |bytes| ==>
              Hex(bytes)[2 * i] == "0123456789abcdef"[bytes[i] / 16] && Hex(bytes)[2 * i + 1] == "0123456789abcdef"[bytes[i] % 16]
  {
    if bytes != [] {
      HexDigits(bytes[1..]);
      var rest := Hex(bytes[1..]);
      forall i | 1 <= i < |bytes| ensures Hex(bytes)[2 * i] == rest[2 * (i - 1)] && Hex(bytes)[2 * i + 1] == rest[2 * (i - 1) + 1] {
      }
    }
  }

  /** A run of bytes without a hyphen after its first place is their digits. */
  lemma {:induction false} TextRun(t: seq<Byte>, k: nat)
    requires 1 <= k <= |t| <= 16
    requires forall i :: 16 - |t| < i < 16 - |t| + k ==> Hyphen(i) == ""
    ensures TailText(t) == Hyphen(16 - |t|) + (Hex(t[..k]) + TailText(t[k..]))
    decreases k
  {
    if k == 1 {
      OneByte(t);
    } else {
      TextRun(t[1..], k - 1);
      OneMoreByte(t, k, Hyphen(16 - |t| + 1));
    }
  }

  lemma OneByte(t: seq<Byte>)
    requires 1 <= |t|
    ensures Hex(t[..1]) == ByteText(t[0])
  {
    assert t[..1][1..] == [] && Hex([]) == "";
  }

  lemma OneMoreByte(t: seq<Byte>, k: nat, hyphen: string)
    requires 2 <= k <= |t| && hyphen == ""
    requires TailText(t[1..]) == hyphen + (Hex(t[1..][..k - 1]) + TailText(t[1..][k - 1..]))
    ensures TailText(t) == Hyphen(16 - |t|) + (Hex(t[..k]) + TailText(t[k..]))
  {
    FirstDigits(t, k);
    assert t[1..][k - 1..] == t[k..];
    Reassociate(ByteText(t[0]), Hex(t[1..][..k - 1]), TailText(t[k..]));
  }

  lemma FirstDigits(t: seq<Byte>, k: nat)
    requires 1 <= k <= |t|
    ensures Hex(t[..k]) == ByteText(t[0]) + Hex(t[1..][..k - 1])
  {
    assert t[..k][1..] == t[1..][..k - 1];
  }

  lemma Reassociate(a: string, b: string, c: string)
    ensures a + ("" + (b + c)) == (a + b) + c
  {
  }

  /** One group of bytes from place `i` to place `j` of a uuid. */
  lemma Group(u: Uuid, i: nat, j: nat)
    requires i < j <= 16 && forall h :: i < h < j ==> Hyphen(h) == ""
    ensures TailText(u[i..]) == Hyphen(i) + (Hex(u[i..j]) + TailText(u[j..]))
  {
    var t: seq<Byte> := u[i..];
    assert |t| == 16 - i && t[..j - i] == u[i..j] && t[j - i..] == u[j..];
    TextRun(t, j - i);
  }

  /** The text is 8, 4, 4, 4 and 12 digits with hyphens between, group by group. */
  lemma CanonicalForm(u: Uuid)
    ensures UuidText(u) == Hex(u[..4]) + TailText(u[4..])
    ensures TailText(u[4..]) == "-" + (Hex(u[4..6]) + TailText(u[6..]))
    ensures TailText(u[6..]) == "-" + (Hex(u[6..8]) + TailText(u[8..]))
    ensures TailText(u[8..]) == "-" + (Hex(u[8..10]) + TailText(u[10..]))
    ensures TailText(u[10..]) == "-" + Hex(u[10..])
  {
    FirstGroup(u);
    Group(u, 4, 6);
    Group(u, 6, 8);
    Group(u, 8, 10);
    LastGroup(u);
  }

  lemma FirstGroup(u: Uuid)
    ensures UuidText(u) == Hex(u[..4]) + TailText(u[4..])
  {
    Group(u, 0, 4);
    assert u[0..] == u && u[0..4] == u[..4];
    assert Hyphen(0) + (Hex(u[..4]) + TailText(u[4..])) == Hex(u[..4]) + TailText(u[4..]);
  }

  lemma LastGroup(u: Uuid)
    ensures TailText(u[10..]) == "-" + Hex(u[10..])
  {
    Group(u, 10, 16);
    assert u[10..16] == u[10..] && TailText(u[16..]) == "";
    assert Hex(u[10..]) + "" == Hex(u[10..]);
  }

  /** Comparing texts under one common prefix is comparing what follows it. */
  lemma {:induction false} CommonPrefix(p: string, a: string, b: string)
    ensures TextLess(p + a, p + b) == TextLess(a, b)
  {
    if p == [] {
      assert p + a == a && p + b == b;
    } else {
      CommonPrefix(p[1..], a, b);
      assert (p + a)[1..] == p[1..] + a && (p + b)[1..] == p[1..] + b;
    }
  }

  lemma ConsOrder(c: char, d: char, a: string, b: string)
    ensures TextLess([c] + a, [d] + b) == (c < d || (c == d && TextLess(a, b)))
  {
    assert ([c] + a)[1..] == a && ([d] + b)[1..] == b;
  }

  lemma ByteOrder(x: Byte, y: Byte, a: string, b: string)
    ensures TextLess(ByteText(x) + a, ByteText(y) + b) == (x < y || (x == y && TextLess(a, b)))
  {
    var xh, xl, yh, yl := HexDigit(x / 16), HexDigit(x % 16), HexDigit(y / 16), HexDigit(y % 16);
    assert ByteText(x) + a == [xh] + ([xl] + a) && ByteText(y) + b == [yh] + ([yl] + b);
    ConsOrder(xh, yh, [xl] + a, [yl] + b);
    ConsOrder(xl, yl, a, b);
    DigitOrder(x / 16, y / 16);
    DigitOrder(x % 16, y % 16);
  }

  lemma DigitOrder(m: nat, n: nat)
    requires m < 16 && n < 16
    ensures HexDigit(m) < HexDigit(n) <==> m < n
    ensures HexDigit(m) == HexDigit(n) <==> m == n
  {
    var digits := "0123456789abcdef";
    assert digits[m] == if m < 10 then '0' + m as char else 'a' + (m - 10) as char;
    assert digits[n] == if n < 10 then '0' + n as char else 'a' + (n - 10) as char;
  }

  lemma TailStep(s: seq<Byte>, t: seq<Byte>)
    requires |s| == |t| > 0
    ensures TextLess(TailText(s), TailText(t))
         == (s[0] < t[0] || (s[0] == t[0] && TextLess(TailText(s[1..]), TailText(t[1..]))))
  {
    CommonPrefix(Hyphen(16 - |s|), ByteText(s[0]) + TailText(s[1..]), ByteText(t[0]) + TailText(t[1..]));
    ByteOrder(s[0], t[0], TailText(s[1..]), TailText(t[1..]));
  }

  lemma {:induction false} TailOrder(s: seq<Byte>, t: seq<Byte>)
    requires |s| == |t|
    ensures TextLess(TailText(s), TailText(t)) == LexLess(ByteLess, s, t)
  {
    if s != [] {
      TailOrder(s[1..], t[1..]);
      TailStep(s, t);
    }
  }

  /** The canonical text form preserves the order of uuids, byte for byte. */
  lemma TextOrder(u: Uuid, v: Uuid)
    ensures TextLess(UuidText(u), UuidText(v)) == UuidLess(u, v)
  {
    TailOrder(u, v);
  }

  lemma TextInjective(u: Uuid, v: Uuid)
    requires UuidText(u) == UuidText(v)
    ensures u == v
  {
    TextOrder(u, v);
    TextOrder(v, u);
    TextStrictTotal();
    LexTotal(ByteLess, u, v);
  }

  // ---------- The query ----------

  datatype Build = Build(id: Uuid, createdAt: int)

  datatype Assignment = Assignment(envId: string, buildId: Uuid)

  datatype BuildKey = BuildKey(createdAt: int, id: Uuid)

  function KeyOf(b: Build): BuildKey { BuildKey(b.createdAt, b.id) }

  /** ORDER BY created_at DESC, id DESC. */
  predicate Newer(a: BuildKey, b: BuildKey) {
    a.createdAt > b.createdAt || (a.createdAt == b.createdAt && UuidLess(b.id, a.id))
  }

  predicate BuildBefore(a: Build, b: Build) { Newer(KeyOf(a), KeyOf(b)) }

  /** (created_at, id::text) < (cursor time, cursor text). */
  predicate SqlBelowCursor(b: Build, time: int, id: string) {
    b.createdAt < time || (b.createdAt == time && TextLess(UuidText(b.id), id))
  }

  function BelowCursor(time: int, id: string): Build -> bool { (b: Build) => SqlBelowCursor(b, time, id) }

  lemma NewerOrder()
    ensures StrictOrder(Newer) && StrictOrder(BuildBefore)
    ensures forall a, b :: a != b ==> Newer(a, b) || Newer(b, a)
  {
    LexStrictTotal(ByteLess);
  }

  /** On a cursor taken from a row, the text filter is the key order. */
  lemma TextCursorIsKeyCursor(b: Build, c: BuildKey)
    ensures SqlBelowCursor(b, c.createdAt, UuidText(c.id)) == Newer(c, KeyOf(b))
  {
    TextOrder(b.id, c.id);
  }

  function Distinct(s: seq<Build>): (r: seq<Build>)
    ensures |r| <= |s|
  {
    if s == [] then []
    else if s[0] in s[1..] then Distinct(s[1..])
    else [s[0]] + Distinct(s[1..])
  }

  lemma {:induction false} DistinctMembers(s: seq<Build>)
    ensures forall x :: x in Distinct(s) <==> x in s
    ensures forall i, j :: 0 <= i < j < |Distinct(s)| ==> Distinct(s)[i] != Distinct(s)[j]
  {
    if s != [] {
      DistinctMembers(s[1..]);
      assert s == [s[0]] + s[1..];
    }
  }

  function AssignedTo(template: string, builds: map<Uuid, Build>): Assignment -> bool {
    (a: Assignment) => a.envId == template && a.buildId in builds
  }

  /** The join of a template's assignments with their builds: a build with several tags occurs several times. */
  function Joined(template: string, assignments: seq<Assignment>, builds: map<Uuid, Build>): seq<Build> {
    if assignments == [] then []
    else (if AssignedTo(template, builds)(assignments[0]) then [builds[assignments[0].buildId]] else [])
         + Joined(template, assignments[1..], builds)
  }

  /** The builds of a template below a cursor: SELECT DISTINCT, filtered and ordered, before LIMIT. */
  function BuildsBelow(joined: seq<Build>, time: int, id: string): seq<Build> {
    Sort(BuildBefore, Distinct(Filter(BelowCursor(time, id), joined)))
  }

  function GetTemplateBuilds(template: string, assignments: seq<Assignment>, builds: map<Uuid, Build>,
                             cursorTime: int, cursorId: string, limit: nat): seq<Build> {
    Take(limit, BuildsBelow(Joined(template, assignments, builds), cursorTime, cursorId))
  }

  ghost predicate IdsIdentify(joined: seq<Build>) {
    forall x, y :: x in joined && y in joined && x.id == y.id ==> x == y
  }

  ghost predicate IsAssigned(template: string, assignments: seq<Assignment>, builds: map<Uuid, Build>, b: Build) {
    exists a :: a in assignments && a.envId == template && a.buildId in builds && builds[a.buildId] == b
  }

  lemma {:induction false} JoinedMembers(template: string, assignments: seq<Assignment>, builds: map<Uuid, Build>, b: Build)
    ensures b in Joined(template, assignments, builds) <==> IsAssigned(template, assignments, builds, b)
  {
    if assignments != [] {
      var rest := assignments[1..];
      JoinedMembers(template, rest, builds, b);
      assert assignments == [assignments[0]] + rest;
      if IsAssigned(template, assignments, builds, b) {
        var a :| a in assignments && a.envId == template && a.buildId in builds && builds[a.buildId] == b;
        if a != assignments[0] {
          assert a in rest;
        }
      }
    }
  }

  // ---------- The walk ----------

  type TextCursor = (int, string)

  function CursorText(b: Build): TextCursor { (b.createdAt, UuidText(b.id)) }

  /** The handler asks for one row more than the page and cuts; the next token carries the last kept row's key as text. */
  function CutPage(rows: seq<Build>, limit: nat): Page<Build, TextCursor>
    requires 1 <= limit
  {
    if |rows| > limit then Page(rows[..limit], Some(CursorText(rows[limit - 1]))) else Page(rows, None)
  }

  function BuildsPage(template: string, assignments: seq<Assignment>, builds: map<Uuid, Build>, c: TextCursor, limit: nat)
    : Page<Build, TextCursor>
    requires 1 <= limit
  {
    CutPage(GetTemplateBuilds(template, assignments, builds, c.0, c.1, limit + 1), limit)
  }

  ghost predicate IsBuildsWalk(template: string, assignments: seq<Assignment>, builds: map<Uuid, Build>,
                               c: TextCursor, limit: nat, pages: seq<Page<Build, TextCursor>>)
    requires 1 <= limit
    decreases |pages|
  {
    && pages != []
    && pages[0] == BuildsPage(template, assignments, builds, c, limit)
    && match pages[0].next
       case None => |pages| == 1
       case Some(d) => IsBuildsWalk(template, assignments, builds, d, limit, pages[1..])
  }

  lemma BuildsBelowSorted(joined: seq<Build>, time: int, id: string)
    requires IdsIdentify(joined)
    ensures Sorted(BuildBefore, BuildsBelow(joined, time, id))
    ensures forall b :: b in BuildsBelow(joined, time, id) <==> b in joined && SqlBelowCursor(b, time, id)
  {
    NewerOrder();
    var below := Filter(BelowCursor(time, id), joined);
    FilterMembers(BelowCursor(time, id), joined);
    DistinctMembers(below);
    var d := Distinct(below);
    forall i, j | 0 <= i < j < |d| ensures BuildBefore(d[i], d[j]) || BuildBefore(d[j], d[i]) {
      assert d[i] in below && d[j] in below;
      assert KeyOf(d[i]) != KeyOf(d[j]);
    }
    SortSorts(BuildBefore, d);
  }

  lemma PositionAgainst(rest: seq<Build>, i: nat, b: Build)
    requires i < |rest| && Sorted(BuildBefore, rest)
    ensures b in rest[i + 1..] <==> b in rest && BuildBefore(rest[i], b)
  {
    NewerOrder();
    if b in rest && BuildBefore(rest[i], b) {
      var j :| 0 <= j < |rest| && rest[j] == b;
      assert i < j;
      assert rest[i + 1..][j - i - 1] == b;
    }
  }

  /** A row after `last` is also below any cursor that `last` was below. */
  lemma CursorsChain(b: Build, last: Build, time: int, id: string)
    requires SqlBelowCursor(last, time, id) && BuildBefore(last, b)
    ensures SqlBelowCursor(b, time, id)
  {
    TextOrder(b.id, last.id);
    TextStrictTotal();
  }

  /** For one row: below a shown row is below the cursor and after that row. */
  lemma BelowOneShown(time: int, id: string, last: Build, b: Build)
    requires SqlBelowCursor(last, time, id)
    ensures SqlBelowCursor(b, CursorText(last).0, CursorText(last).1) <==> SqlBelowCursor(b, time, id) && BuildBefore(last, b)
  {
    TextCursorIsKeyCursor(b, KeyOf(last));
    if BuildBefore(last, b) {
      CursorsChain(b, last, time, id);
    }
  }

  /** What lies below the last row shown is exactly what has not been shown. */
  lemma BelowLastShown(joined: seq<Build>, time: int, id: string, i: nat)
    requires IdsIdentify(joined)
    requires 0 < i <= |BuildsBelow(joined, time, id)|
    ensures
      var rest := BuildsBelow(joined, time, id);
      var c := CursorText(rest[i - 1]);
      BuildsBelow(joined, c.0, c.1) == rest[i..]
  {
    var rest := BuildsBelow(joined, time, id);
    var c := CursorText(rest[i - 1]);
    BuildsBelowSorted(joined, time, id);
    BuildsBelowSorted(joined, c.0, c.1);
    forall b ensures b in BuildsBelow(joined, c.0, c.1) <==> b in rest[i..] {
      BelowOrShown(joined, time, id, i, b);
    }
    NewerOrder();
    SortedUnique(BuildBefore, BuildsBelow(joined, c.0, c.1), rest[i..]);
  }

  lemma BelowOrShown(joined: seq<Build>, time: int, id: string, i: nat, b: Build)
    requires IdsIdentify(joined) && 0 < i <= |BuildsBelow(joined, time, id)|
    ensures
      var rest := BuildsBelow(joined, time, id);
      var c := CursorText(rest[i - 1]);
      b in BuildsBelow(joined, c.0, c.1) <==> b in rest[i..]
  {
    var rest := BuildsBelow(joined, time, id);
    var last := rest[i - 1];
    BuildsBelowSorted(joined, time, id);
    BuildsBelowSorted(joined, CursorText(last).0, CursorText(last).1);
    PositionAgainst(rest, i - 1, b);
    BelowOneShown(time, id, last, b);
  }

  lemma FirstPage(rest: seq<Build>, limit: nat)
    requires 1 <= limit
    ensures |rest| > limit ==> CutPage(Take(limit + 1, rest), limit) == Page(rest[..limit], Some(CursorText(rest[limit - 1])))
    ensures |rest| > limit ==> rest == rest[..limit] + rest[limit..]
    ensures |rest| <= limit ==> CutPage(Take(limit + 1, rest), limit) == Page(rest, None)
  {
  }

  lemma {:induction false} WalkOverJoined(template: string, assignments: seq<Assignment>, builds: map<Uuid, Build>,
                                          c: TextCursor, limit: nat, pages: seq<Page<Build, TextCursor>>)
    requires 1 <= limit && IdsIdentify(Joined(template, assignments, builds))
    requires IsBuildsWalk(template, assignments, builds, c, limit, pages)
    ensures Rows(pages) == BuildsBelow(Joined(template, assignments, builds), c.0, c.1)
    decreases |pages|
  {
    var joined := Joined(template, assignments, builds);
    var rest := BuildsBelow(joined, c.0, c.1);
    FirstPage(rest, limit);
    if |rest| > limit {
      var d := CursorText(rest[limit - 1]);
      BelowLastShown(joined, c.0, c.1, limit);
      WalkOverJoined(template, assignments, builds, d, limit, pages[1..]);
    } else {
      assert Rows(pages[1..]) == [];
    }
  }

  /** Following next tokens from any cursor ends. */
  function BuildsWalk(template: string, assignments: seq<Assignment>, builds: map<Uuid, Build>, c: TextCursor, limit: nat)
    : (pages: seq<Page<Build, TextCursor>>)
    requires 1 <= limit && IdsIdentify(Joined(template, assignments, builds))
    ensures IsBuildsWalk(template, assignments, builds, c, limit, pages)
    decreases |BuildsBelow(Joined(template, assignments, builds), c.0, c.1)|
  {
    var page := BuildsPage(template, assignments, builds, c, limit);
    match page.next
    case None => [page]
    case Some(d) =>
      FirstPage(BuildsBelow(Joined(template, assignments, builds), c.0, c.1), limit);
      BelowLastShown(Joined(template, assignments, builds), c.0, c.1, limit);
      [page] + BuildsWalk(template, assignments, builds, d, limit)
  }

  /** Following next tokens lists every build of the template below the first cursor exactly once, newest first. */
  lemma BuildsWalkComplete(template: string, assignments: seq<Assignment>, builds: map<Uuid, Build>,
                           c: TextCursor, limit: nat, pages: seq<Page<Build, TextCursor>>)
    requires 1 <= limit
    requires forall id :: id in builds ==> builds[id].id == id
    requires IsBuildsWalk(template, assignments, builds, c, limit, pages)
    ensures Sorted(BuildBefore, Rows(pages))
    ensures forall b :: b in Rows(pages) <==> IsAssigned(template, assignments, builds, b) && SqlBelowCursor(b, c.0, c.1)
  {
    var joined := Joined(template, assignments, builds);
    forall b ensures b in joined <==> IsAssigned(template, assignments, builds, b) {
      JoinedMembers(template, assignments, builds, b);
    }
    WalkOverJoined(template, assignments, builds, c, limit, pages);
    BuildsBelowSorted(joined, c.0, c.1);
  }
}
