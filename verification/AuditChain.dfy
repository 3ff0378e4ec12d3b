/**
 * The audit log's hash chain: how an entry is hashed over its content and its predecessor's hash,
 * how entries are appended per company, and what verifying a list of entries establishes.
 */
module AuditChain {
  import opened Wrappers

  // ---------------------------------------------------------------- hashing

  datatype Payload = Payload(companyId: Option<string>, userId: Option<string>, action: string, entity: string,
                             entityId: Option<string>, oldValue: Option<string>, newValue: Option<string>, createdAt: int)

  /** A stored entry; `prevHash` is kept for the reader and not consulted by verification. */
  datatype Row = Row(payload: Payload, hash: Option<string>, prevHash: Option<string>)

  /** The keyed digest and the rendering of an instant are parameters: neither is computed here. */
  datatype Primitives = Primitives(mac: string -> string, iso: int -> string)

  function Fields(p: Payload): seq<string> {
    [OrEmpty(p.companyId), OrEmpty(p.userId), p.action, p.entity, OrEmpty(p.entityId), OrEmpty(p.oldValue), OrEmpty(p.newValue)]
  }

  function Canonical(prims: Primitives, p: Payload): string {
    Join(Fields(p) + [prims.iso(p.createdAt)], "|")
  }

  function HashedText(prims: Primitives, p: Payload, prev: string): string {
    Canonical(prims, p) + ("|" + prev)
  }

  function HexDigit(c: char): Option<nat> {
    if '0' <= c <= '9' then Some(c as int - '0' as int)
    else if 'a' <= c <= 'f' then Some(c as int - 'a' as int + 10)
    else if 'A' <= c <= 'F' then Some(c as int - 'A' as int + 10)
    else None
  }

  /** `Buffer.from(text, 'hex')`: pairs of digits, up to the first pair that is not one. */
  function HexBytes(text: string): seq<nat> {
    if |text| < 2 || HexDigit(text[0]).None? || HexDigit(text[1]).None? then []
    else [16 * HexDigit(text[0]).value + HexDigit(text[1]).value] + HexBytes(text[2..])
  }

  predicate VerifyHash(prims: Primitives, p: Payload, prev: string, stored: Option<string>) {
    Truthy(stored) && HexBytes(prims.mac(HashedText(prims, p, prev))) == HexBytes(stored.value)
  }

  function PrevOf(rows: seq<Row>, i: nat): string
    requires i < |rows|
  {
    if i == 0 then "" else OrEmpty(rows[i - 1].hash)
  }

  predicate EntryHolds(prims: Primitives, rows: seq<Row>, i: nat)
    requires i < |rows|
  {
    VerifyHash(prims, rows[i].payload, PrevOf(rows, i), rows[i].hash)
  }

  predicate Intact(prims: Primitives, rows: seq<Row>) {
    forall i :: 0 <= i < |rows| ==> EntryHolds(prims, rows, i)
  }

  /** Answers nothing exactly for an intact list, and otherwise the first entry that fails. */
  method VerifyAuditChain(prims: Primitives, entries: seq<Row>) returns (tamperedAt: Option<nat>)
    ensures tamperedAt.None? <==> Intact(prims, entries)
    ensures tamperedAt.Some? ==> tamperedAt.value < |entries| && !EntryHolds(prims, entries, tamperedAt.value)
    ensures tamperedAt.Some? ==> forall i :: 0 <= i < tamperedAt.value ==> EntryHolds(prims, entries, i)
  {
    var prev := "";
    for i := 0 to |entries|
      invariant i < |entries| ==> prev == PrevOf(entries, i)
      invariant forall k :: 0 <= k < i ==> EntryHolds(prims, entries, k)
    {
      if !VerifyHash(prims, entries[i].payload, prev, entries[i].hash) {
        assert !EntryHolds(prims, entries, i);
        return Some(i);
      }
      prev := OrEmpty(entries[i].hash);
    }
    return None;
  }

  // ---------------------------------------------------------------- what the digest and the clock are

  predicate IsDigest(s: string) {
    |s| == 64 && forall i :: 0 <= i < 64 ==> '0' <= s[i] <= '9' || 'a' <= s[i] <= 'f'
  }

  /** Digests are 64 lower-case hex digits; instants print without the separator, and differently. */
  ghost predicate Sound(prims: Primitives) {
    && (forall text :: IsDigest(prims.mac(text)))
    && (forall t :: '|' !in prims.iso(t))
    && (forall t, u :: prims.iso(t) == prims.iso(u) ==> t == u)
  }

  ghost predicate FitsColumn(rows: seq<Row>) {
    forall i :: 0 <= i < |rows| && rows[i].hash.Some? ==> |rows[i].hash.value| <= 64
  }

  predicate HexOnly(s: string) {
    forall i :: 0 <= i < |s| ==> HexDigit(s[i]).Some?
  }

  lemma {:induction false} BytesOfHex(s: string)
    requires HexOnly(s) && |s| % 2 == 0
    ensures 2 * |HexBytes(s)| == |s|
  {
    if |s| >= 2 { BytesOfHex(s[2..]); }
  }

  /** A text that decodes to at least half its length in bytes is made of digits only. */
  lemma {:induction false} ManyBytesAreHex(s: string)
    requires 2 * |HexBytes(s)| >= |s|
    ensures HexOnly(s)
  {
    if |s| >= 2 && HexDigit(s[0]).Some? && HexDigit(s[1]).Some? {
      ManyBytesAreHex(s[2..]);
      assert forall i :: 2 <= i < |s| ==> s[i] == s[2..][i - 2];
    }
  }

  predicate LowerHex(s: string) {
    forall i :: 0 <= i < |s| ==> '0' <= s[i] <= '9' || 'a' <= s[i] <= 'f'
  }

  lemma {:induction false} BytesDetermineLowerHex(s: string, t: string)
    requires LowerHex(s) && LowerHex(t) && |s| == |t| && |s| % 2 == 0
    requires HexBytes(s) == HexBytes(t)
    ensures s == t
  {
    if |s| >= 2 {
      assert HexBytes(s)[0] == HexBytes(t)[0];
      assert s[0] == t[0] && s[1] == t[1];
      assert HexBytes(s)[1..] == HexBytes(s[2..]) && HexBytes(t)[1..] == HexBytes(t[2..]);
      BytesDetermineLowerHex(s[2..], t[2..]);
      assert s == s[..2] + s[2..] && t == t[..2] + t[2..];
    }
  }

  lemma StoredHashIsHex(prims: Primitives, rows: seq<Row>, i: nat)
    requires Sound(prims) && FitsColumn(rows) && i < |rows| && EntryHolds(prims, rows, i)
    ensures HexOnly(rows[i].hash.value) && '|' !in rows[i].hash.value && rows[i].hash.value != ""
  {
    var digest := prims.mac(HashedText(prims, rows[i].payload, PrevOf(rows, i)));
    assert IsDigest(digest);
    BytesOfHex(digest);
    ManyBytesAreHex(rows[i].hash.value);
    assert HexDigit('|').None?;
  }

  // ---------------------------------------------------------------- an equal end means an equal past

  function TextAt(prims: Primitives, rows: seq<Row>, i: nat): string
    requires i < |rows|
  {
    HashedText(prims, rows[i].payload, PrevOf(rows, i))
  }

  /** Two different texts that were hashed, one in each list, have the same digest. */
  ghost predicate Collide(prims: Primitives, a: seq<Row>, b: seq<Row>) {
    exists i: nat, j: nat | i < |a| && j < |b| ::
      TextAt(prims, a, i) != TextAt(prims, b, j) && prims.mac(TextAt(prims, a, i)) == prims.mac(TextAt(prims, b, j))
  }

  /** Both texts end in a separator and a separator-free tail, so they split in one way. */
  lemma LastSeparatorSplits(a: string, x: string, b: string, y: string)
    requires a + ("|" + x) == b + ("|" + y)
    requires '|' !in x && '|' !in y
    ensures a == b && x == y
  {
    var s := a + ("|" + x);
    assert s[|a|] == '|' && s[|b|] == '|';
    assert |a| == |b|;
    assert s[..|a|] == a && s[..|a|] == b;
    assert s[|a| + 1..] == x && s[|a| + 1..] == y;
  }

  lemma PrevIsHex(prims: Primitives, rows: seq<Row>, i: nat)
    requires Sound(prims) && FitsColumn(rows) && Intact(prims, rows) && i < |rows|
    ensures '|' !in PrevOf(rows, i)
    ensures PrevOf(rows, i) == "" <==> i == 0
  {
    if i > 0 {
      assert EntryHolds(prims, rows, i - 1);
      StoredHashIsHex(prims, rows, i - 1);
    }
  }

  /** One step back: equal stored hashes mean equal content and equal previous hashes, or a collision. */
  lemma EqualHashesStepBack(prims: Primitives, a: seq<Row>, b: seq<Row>, i: nat, j: nat)
    requires Sound(prims) && FitsColumn(a) && FitsColumn(b) && Intact(prims, a) && Intact(prims, b)
    requires i < |a| && j < |b|
    requires HexBytes(OrEmpty(a[i].hash)) == HexBytes(OrEmpty(b[j].hash))
    ensures Collide(prims, a, b)
         || (Canonical(prims, a[i].payload) == Canonical(prims, b[j].payload) && PrevOf(a, i) == PrevOf(b, j))
  {
    assert EntryHolds(prims, a, i) && EntryHolds(prims, b, j);
    var x, y := TextAt(prims, a, i), TextAt(prims, b, j);
    assert IsDigest(prims.mac(x)) && IsDigest(prims.mac(y));
    BytesDetermineLowerHex(prims.mac(x), prims.mac(y));
    if x == y {
      PrevIsHex(prims, a, i);
      PrevIsHex(prims, b, j);
      LastSeparatorSplits(Canonical(prims, a[i].payload), PrevOf(a, i), Canonical(prims, b[j].payload), PrevOf(b, j));
    }
  }

  ghost predicate SameContents(prims: Primitives, a: seq<Row>, b: seq<Row>) {
    && |a| == |b|
    && forall i :: 0 <= i < |a| ==> Canonical(prims, a[i].payload) == Canonical(prims, b[i].payload)
  }

  lemma {:induction false} HistoryBehind(prims: Primitives, a: seq<Row>, b: seq<Row>, i: nat, j: nat)
    requires Sound(prims) && FitsColumn(a) && FitsColumn(b) && Intact(prims, a) && Intact(prims, b)
    requires i < |a| && j < |b|
    requires HexBytes(OrEmpty(a[i].hash)) == HexBytes(OrEmpty(b[j].hash))
    ensures Collide(prims, a, b)
         || (i == j && forall k :: 0 <= k <= i ==> Canonical(prims, a[k].payload) == Canonical(prims, b[k].payload))
    decreases i
  {
    EqualHashesStepBack(prims, a, b, i, j);
    if !Collide(prims, a, b) {
      PrevIsHex(prims, a, i);
      PrevIsHex(prims, b, j);
      if i > 0 {
        HistoryBehind(prims, a, b, i - 1, j - 1);
      }
    }
  }

  /**
   * Two lists that both verify and end in the same hash have the same length and the same canonical
   * content entry by entry, unless two different texts hashed in them share a digest. So no entry can
   * be changed, inserted, removed or reordered while the last hash stays.
   */
  lemma EqualEndsEqualHistory(prims: Primitives, a: seq<Row>, b: seq<Row>)
    requires Sound(prims) && FitsColumn(a) && FitsColumn(b) && Intact(prims, a) && Intact(prims, b)
    requires |a| > 0 && |b| > 0
    requires HexBytes(OrEmpty(a[|a| - 1].hash)) == HexBytes(OrEmpty(b[|b| - 1].hash))
    ensures SameContents(prims, a, b) || Collide(prims, a, b)
  {
    HistoryBehind(prims, a, b, |a| - 1, |b| - 1);
  }

  // ---------------------------------------------------------------- what the canonical text determines

  function Separators(s: string): nat {
    if s == "" then 0 else (if s[0] == '|' then 1 else 0) + Separators(s[1..])
  }

  lemma {:induction false} SeparatorsOfConcat(s: string, t: string)
    ensures Separators(s + t) == Separators(s) + Separators(t)
  {
    if s == "" {
      assert s + t == t;
    } else {
      SeparatorsOfConcat(s[1..], t);
      assert (s + t)[1..] == s[1..] + t;
    }
  }

  lemma {:induction false} NoSeparators(s: string)
    ensures Separators(s) == 0 <==> '|' !in s
  {
    if s != "" {
      NoSeparators(s[1..]);
      assert '|' in s <==> s[0] == '|' || '|' in s[1..];
    }
  }

  function TotalSeparators(parts: seq<string>): nat {
    if parts == [] then 0 else Separators(parts[0]) + TotalSeparators(parts[1..])
  }

  lemma {:induction false} SeparatorsOfJoin(parts: seq<string>)
    requires |parts| > 0
    ensures Separators(Join(parts, "|")) == |parts| - 1 + TotalSeparators(parts)
  {
    if |parts| == 1 {
      assert parts[1..] == [];
    } else {
      var more := Join(parts[1..], "|");
      SeparatorsOfJoin(parts[1..]);
      SeparatorsOfConcat(parts[0], "|" + more);
      assert ("|" + more)[1..] == more;
    }
  }

  ghost predicate SeparatorFree(parts: seq<string>) {
    forall i :: 0 <= i < |parts| ==> '|' !in parts[i]
  }

  lemma {:induction false} NoneInTotal(parts: seq<string>)
    ensures TotalSeparators(parts) == 0 <==> SeparatorFree(parts)
  {
    if parts != [] {
      NoSeparators(parts[0]);
      NoneInTotal(parts[1..]);
      assert forall i :: 1 <= i < |parts| ==> parts[i] == parts[1..][i - 1];
    }
  }

  /** The first separator ends a separator-free first part. */
  lemma FirstSeparatorSplits(x: string, a: string, y: string, b: string)
    requires x + ("|" + a) == y + ("|" + b)
    requires '|' !in x && '|' !in y
    ensures x == y && a == b
  {
    var s := x + ("|" + a);
    assert s[|x|] == '|' && s[|y|] == '|';
    assert |x| == |y|;
    assert s[..|x|] == x && s[..|x|] == y;
    assert s[|x| + 1..] == a && s[|x| + 1..] == b;
  }

  lemma {:induction false} JoinSplits(f: seq<string>, g: seq<string>)
    requires |f| == |g| > 0 && SeparatorFree(f) && SeparatorFree(g)
    requires Join(f, "|") == Join(g, "|")
    ensures f == g
  {
    if |f| == 1 {
      assert f == [f[0]] && g == [g[0]];
    } else {
      FirstSeparatorSplits(f[0], Join(f[1..], "|"), g[0], Join(g[1..], "|"));
      JoinSplits(f[1..], g[1..]);
      assert f == [f[0]] + f[1..] && g == [g[0]] + g[1..];
    }
  }

  /** Equal up to the difference between a missing value and an empty one. */
  predicate SameContent(p: Payload, q: Payload) {
    Fields(p) == Fields(q) && p.createdAt == q.createdAt
  }

  lemma SeparatorFreeContentIsDetermined(prims: Primitives, p: Payload, q: Payload)
    requires Sound(prims) && SeparatorFree(Fields(p))
    requires Canonical(prims, p) == Canonical(prims, q)
    ensures SameContent(p, q)
  {
    var f, g := Fields(p) + [prims.iso(p.createdAt)], Fields(q) + [prims.iso(q.createdAt)];
    assert SeparatorFree(f);
    SeparatorsOfJoin(f);
    SeparatorsOfJoin(g);
    NoneInTotal(f);
    NoneInTotal(g);
    JoinSplits(f, g);
    assert f[..7] == Fields(p) && g[..7] == Fields(q);
    assert f[7] == g[7];
  }

  function FromFields(fields: seq<string>, createdAt: int): Payload
    requires |fields| == 7
  {
    Payload(Some(fields[0]), Some(fields[1]), fields[2], fields[3], Some(fields[4]), Some(fields[5]), Some(fields[6]), createdAt)
  }

  lemma {:induction false} MovingASeparator(parts: seq<string>, i: nat, x: string, y: string, z: string)
    requires i + 1 < |parts|
    ensures Join(parts[i := x + ("|" + y)][i + 1 := z], "|") == Join(parts[i := x][i + 1 := y + ("|" + z)], "|")
    decreases i
  {
    var a, b := parts[i := x + ("|" + y)][i + 1 := z], parts[i := x][i + 1 := y + ("|" + z)];
    if i > 0 {
      MovingASeparator(parts[1..], i - 1, x, y, z);
      assert a[1..] == parts[1..][i - 1 := x + ("|" + y)][i := z];
      assert b[1..] == parts[1..][i - 1 := x][i := y + ("|" + z)];
    } else {
      assert a[1..][1..] == b[1..][1..];
      var more := a[2..];
      assert a[1..] == [z] + more && b[1..] == [y + ("|" + z)] + more;
      JoinCons(z, more);
      JoinCons(y + ("|" + z), more);
      var tail := if more == [] then "" else "|" + Join(more, "|");
      assert (x + ("|" + y)) + ("|" + (z + tail)) == x + ("|" + ((y + ("|" + z)) + tail));
    }
  }

  lemma JoinCons(head: string, more: seq<string>)
    ensures Join([head] + more, "|") == head + (if more == [] then "" else "|" + Join(more, "|"))
  {
    assert ([head] + more)[1..] == more;
  }

  /** A field before the last that holds the separator: its tail can move to the next field. */
  lemma TailMovesOn(prims: Primitives, p: Payload, i: nat, x: string, y: string) returns (q: Payload)
    requires i < 6 && Fields(p)[i] == x + ("|" + y)
    ensures Canonical(prims, q) == Canonical(prims, p) && !SameContent(p, q)
  {
    var f, stamp := Fields(p), [prims.iso(p.createdAt)];
    var g := f[i := x][i + 1 := y + ("|" + f[i + 1])];
    MovingASeparator(f + stamp, i, x, y, f[i + 1]);
    assert (f + stamp)[i := x + ("|" + y)][i + 1 := f[i + 1]] == f + stamp;
    assert (f + stamp)[i := x][i + 1 := y + ("|" + f[i + 1])] == g + stamp;
    q := FromFields(g, p.createdAt);
    assert Fields(q) == g && |g[i]| < |f[i]|;
  }

  /** The last field holds the separator: its head can move to the field before. */
  lemma HeadMovesBack(prims: Primitives, p: Payload, x: string, y: string) returns (q: Payload)
    requires Fields(p)[6] == x + ("|" + y)
    ensures Canonical(prims, q) == Canonical(prims, p) && !SameContent(p, q)
  {
    var f, stamp := Fields(p), [prims.iso(p.createdAt)];
    var g := f[5 := f[5] + ("|" + x)][6 := y];
    MovingASeparator(f + stamp, 5, f[5], x, y);
    assert (f + stamp)[5 := f[5]][6 := x + ("|" + y)] == f + stamp;
    assert (f + stamp)[5 := f[5] + ("|" + x)][6 := y] == g + stamp;
    q := FromFields(g, p.createdAt);
    assert Fields(q) == g && |g[6]| < |f[6]|;
  }

  /** A field that holds the separator can be read as two: another payload has the same canonical text. */
  lemma SeparatorMakesATwin(prims: Primitives, p: Payload, i: nat) returns (q: Payload)
    requires i < 7 && '|' in Fields(p)[i]
    ensures Canonical(prims, q) == Canonical(prims, p) && !SameContent(p, q)
  {
    var field := Fields(p)[i];
    var k :| 0 <= k < |field| && field[k] == '|';
    assert field == field[..k] + ("|" + field[k + 1..]);
    if i < 6 {
      q := TailMovesOn(prims, p, i, field[..k], field[k + 1..]);
    } else {
      q := HeadMovesBack(prims, p, field[..k], field[k + 1..]);
    }
  }

  /** The canonical text determines an entry's content exactly when none of its fields holds the separator. */
  lemma CanonicalDeterminesContentExactly(prims: Primitives, p: Payload)
    requires Sound(prims)
    ensures (forall q :: Canonical(prims, q) == Canonical(prims, p) ==> SameContent(p, q)) <==> SeparatorFree(Fields(p))
  {
    if SeparatorFree(Fields(p)) {
      forall q | Canonical(prims, q) == Canonical(prims, p) ensures SameContent(p, q) {
        SeparatorFreeContentIsDetermined(prims, p, q);
      }
    } else {
      var i :| 0 <= i < |Fields(p)| && '|' in Fields(p)[i];
      var q := SeparatorMakesATwin(prims, p, i);
    }
  }

  // ---------------------------------------------------------------- appending

  datatype Entry = Entry(companyId: Option<string>, userId: string, action: string, entity: string,
                         entityId: Option<string>, oldValue: Option<string>, newValue: Option<string>)

  /** The entries of one company, or of no company, in table order. */
  function Chain(rows: seq<Row>, company: Option<string>): seq<Row> {
    if rows == [] then []
    else
      var front := Chain(rows[..|rows| - 1], company);
      var last := rows[|rows| - 1];
      if last.payload.companyId == company then front + [last] else front
  }

  /** `findFirst` ordered by `createdAt` descending. */
  function Latest(rows: seq<Row>): Option<Row> {
    if rows == [] then None
    else
      var best := Latest(rows[..|rows| - 1]);
      var last := rows[|rows| - 1];
      if best.Some? && best.value.payload.createdAt > last.payload.createdAt then best else Some(last)
  }

  function NewRow(prims: Primitives, previous: Option<Row>, e: Entry, now: int): Row {
    var prevHash := if previous.Some? then OrEmpty(previous.value.hash) else "";
    var createdAt := if previous.Some? && now <= previous.value.payload.createdAt
                     then previous.value.payload.createdAt + 1 else now;
    var payload := Payload(e.companyId, Some(e.userId), e.action, e.entity, e.entityId, e.oldValue, e.newValue, createdAt);
    Row(payload, Some(prims.mac(HashedText(prims, payload, prevHash))), if prevHash == "" then None else Some(prevHash))
  }

  function Append(prims: Primitives, rows: seq<Row>, e: Entry, now: int): seq<Row> {
    rows + [NewRow(prims, Latest(Chain(rows, e.companyId)), e, now)]
  }

  datatype Call = Call(entry: Entry, now: int)

  function Run(prims: Primitives, calls: seq<Call>): seq<Row> {
    if calls == [] then []
    else
      var last := calls[|calls| - 1];
      Append(prims, Run(prims, calls[..|calls| - 1]), last.entry, last.now)
  }

  predicate Ascending(rows: seq<Row>) {
    forall i, j :: 0 <= i < j < |rows| ==> rows[i].payload.createdAt < rows[j].payload.createdAt
  }

  /** Each entry names its predecessor's hash; the first names none. */
  predicate Linked(rows: seq<Row>) {
    forall i :: 0 <= i < |rows| ==> LinkedAt(rows, i)
  }

  predicate LinkedAt(rows: seq<Row>, i: int)
    requires 0 <= i < |rows|
  {
    rows[i].hash.Some? && if i == 0 then rows[i].prevHash.None? else rows[i].prevHash == rows[i - 1].hash
  }

  predicate GoodChain(prims: Primitives, rows: seq<Row>) {
    Ascending(rows) && Linked(rows) && Intact(prims, rows)
  }

  ghost predicate Inv(prims: Primitives, rows: seq<Row>) {
    forall company: Option<string> :: GoodChain(prims, Chain(rows, company))
  }

  lemma LatestOfAscending(rows: seq<Row>)
    requires Ascending(rows)
    ensures Latest(rows) == if rows == [] then None else Some(rows[|rows| - 1])
  {}

  lemma IntactExtends(prims: Primitives, chain: seq<Row>, row: Row)
    requires Intact(prims, chain)
    requires EntryHolds(prims, chain + [row], |chain|)
    ensures Intact(prims, chain + [row])
  {
    var longer := chain + [row];
    forall i | 0 <= i < |longer| ensures EntryHolds(prims, longer, i) {
      if i < |chain| {
        assert EntryHolds(prims, chain, i) && PrevOf(longer, i) == PrevOf(chain, i);
      }
    }
  }

  lemma NewRowHolds(prims: Primitives, chain: seq<Row>, row: Row)
    requires Sound(prims)
    requires row.hash == Some(prims.mac(HashedText(prims, row.payload, PrevOf(chain + [row], |chain|))))
    ensures EntryHolds(prims, chain + [row], |chain|)
  {
    assert IsDigest(row.hash.value);
  }

  lemma OrderedExtends(chain: seq<Row>, row: Row)
    requires Ascending(chain) && Linked(chain) && row.hash.Some?
    requires |chain| > 0 ==> row.payload.createdAt > chain[|chain| - 1].payload.createdAt
    requires if |chain| == 0 then row.prevHash.None? else row.prevHash == chain[|chain| - 1].hash
    ensures Ascending(chain + [row]) && Linked(chain + [row])
  {
    var longer, n := chain + [row], |chain|;
    forall i, j | 0 <= i < j < |longer| ensures longer[i].payload.createdAt < longer[j].payload.createdAt {
      if j < n {
        assert longer[i] == chain[i] && longer[j] == chain[j];
      } else {
        assert longer[i] == chain[i] && longer[j] == row;
        assert i < n - 1 ==> chain[i].payload.createdAt < chain[n - 1].payload.createdAt;
      }
    }
    forall i | 0 <= i < |longer| ensures LinkedAt(longer, i) {
      if i < n {
        assert LinkedAt(chain, i) && longer[i] == chain[i] && (i > 0 ==> longer[i - 1] == chain[i - 1]);
      } else {
        assert longer[i] == row && (i > 0 ==> longer[i - 1] == chain[n - 1]);
      }
    }
  }

  /** What a new row takes over from the end of its chain. */
  lemma NewRowFollows(prims: Primitives, chain: seq<Row>, e: Entry, now: int)
    requires Sound(prims) && Ascending(chain) && Linked(chain) && Intact(prims, chain)
    ensures var row := NewRow(prims, Latest(chain), e, now);
            && (|chain| > 0 ==> row.payload.createdAt > chain[|chain| - 1].payload.createdAt)
            && (if |chain| == 0 then row.prevHash.None? else row.prevHash == chain[|chain| - 1].hash)
            && row.hash == Some(prims.mac(HashedText(prims, row.payload, PrevOf(chain + [row], |chain|))))
  {
    LatestOfAscending(chain);
    if |chain| > 0 {
      assert EntryHolds(prims, chain, |chain| - 1) && LinkedAt(chain, |chain| - 1);
    } else {
      assert chain == [];
    }
  }

  lemma NewRowExtends(prims: Primitives, chain: seq<Row>, e: Entry, now: int)
    requires Sound(prims) && GoodChain(prims, chain)
    ensures GoodChain(prims, chain + [NewRow(prims, Latest(chain), e, now)])
  {
    var row := NewRow(prims, Latest(chain), e, now);
    NewRowFollows(prims, chain, e, now);
    OrderedExtends(chain, row);
    NewRowHolds(prims, chain, row);
    IntactExtends(prims, chain, row);
  }

  lemma AppendKeepsChains(prims: Primitives, rows: seq<Row>, e: Entry, now: int)
    requires Sound(prims) && Inv(prims, rows)
    ensures Inv(prims, Append(prims, rows, e, now))
  {
    var more := Append(prims, rows, e, now);
    assert more[..|more| - 1] == rows;
    forall company: Option<string> ensures GoodChain(prims, Chain(more, company)) {
      assert GoodChain(prims, Chain(rows, company));
      if company == e.companyId {
        NewRowExtends(prims, Chain(rows, company), e, now);
      }
    }
  }

  /**
   * After any appends, for any companies and with any clock readings, every company's chain is
   * strictly ordered by its timestamps, linked by its stored previous hashes, and verifies.
   */
  lemma {:induction false} RunKeepsChains(prims: Primitives, calls: seq<Call>)
    requires Sound(prims)
    ensures Inv(prims, Run(prims, calls))
  {
    if calls != [] {
      var last := calls[|calls| - 1];
      RunKeepsChains(prims, calls[..|calls| - 1]);
      AppendKeepsChains(prims, Run(prims, calls[..|calls| - 1]), last.entry, last.now);
    }
  }

  predicate Sorted(rows: seq<Row>) {
    forall i, j :: 0 <= i < j < |rows| ==> rows[i].payload.createdAt <= rows[j].payload.createdAt
  }

  lemma RestIsSorted(answer: seq<Row>, chain: seq<Row>)
    requires answer != [] && chain != [] && Sorted(answer) && Ascending(chain)
    ensures Sorted(answer[1..]) && Ascending(chain[1..])
  {}

  lemma LeastComesFirst(answer: seq<Row>, chain: seq<Row>)
    requires multiset(answer) == multiset(chain) && Sorted(answer) && Ascending(chain) && answer != [] && chain != []
    ensures answer[0] == chain[0]
  {
    assert chain[0] in multiset(answer) && answer[0] in multiset(chain);
  }

  /** Sorting by timestamp has one answer on a strictly ordered chain: the chain. */
  lemma {:induction false} SortedSelectionIsTheChain(answer: seq<Row>, chain: seq<Row>)
    requires multiset(answer) == multiset(chain) && Sorted(answer) && Ascending(chain)
    ensures answer == chain
  {
    assert |answer| == |multiset(answer)| == |multiset(chain)| == |chain|;
    if chain != [] {
      LeastComesFirst(answer, chain);
      assert answer == [answer[0]] + answer[1..] && chain == [chain[0]] + chain[1..];
      assert multiset(answer[1..]) == multiset(answer) - multiset{answer[0]};
      assert multiset(chain[1..]) == multiset(chain) - multiset{chain[0]};
      RestIsSorted(answer, chain);
      SortedSelectionIsTheChain(answer[1..], chain[1..]);
    }
  }

  /** The integrity check of one company, on what its query returns after any run, finds nothing. */
  lemma CompanyCheckPasses(prims: Primitives, calls: seq<Call>, company: Option<string>, answer: seq<Row>)
    requires Sound(prims)
    requires multiset(answer) == multiset(Chain(Run(prims, calls), company)) && Sorted(answer)
    ensures Intact(prims, answer)
  {
    RunKeepsChains(prims, calls);
    assert GoodChain(prims, Chain(Run(prims, calls), company));
    SortedSelectionIsTheChain(answer, Chain(Run(prims, calls), company));
  }

  // ---------------------------------------------------------------- two entries after one

  lemma {:induction false} JoinSnoc(parts: seq<string>, last: string)
    requires |parts| > 0
    ensures Join(parts + [last], "|") == Join(parts, "|") + ("|" + last)
  {
    var more := parts + [last];
    assert more[1..] == parts[1..] + [last];
    if |parts| > 1 {
      JoinSnoc(parts[1..], last);
      assert parts[0] + ("|" + (Join(parts[1..], "|") + ("|" + last))) == (parts[0] + ("|" + Join(parts[1..], "|"))) + ("|" + last);
    } else {
      assert more[1..] == [last];
    }
  }

  /** Entries of different instants have different canonical texts. */
  lemma CanonicalTellsInstants(prims: Primitives, p: Payload, q: Payload)
    requires Sound(prims) && Canonical(prims, p) == Canonical(prims, q)
    ensures p.createdAt == q.createdAt
  {
    JoinSnoc(Fields(p), prims.iso(p.createdAt));
    JoinSnoc(Fields(q), prims.iso(q.createdAt));
    LastSeparatorSplits(Join(Fields(p), "|"), prims.iso(p.createdAt), Join(Fields(q), "|"), prims.iso(q.createdAt));
  }

  /** The hash of an entry differs from the one it follows, short of a collision. */
  lemma SuccessorHasItsOwnHash(prims: Primitives, chain: seq<Row>, row: Row)
    requires Sound(prims) && FitsColumn(chain) && Intact(prims, chain) && |chain| > 0
    requires row.payload.createdAt > chain[|chain| - 1].payload.createdAt
    requires row.hash == Some(prims.mac(HashedText(prims, row.payload, OrEmpty(chain[|chain| - 1].hash))))
    requires row.hash == chain[|chain| - 1].hash
    ensures HashedText(prims, row.payload, OrEmpty(chain[|chain| - 1].hash)) != TextAt(prims, chain, |chain| - 1)
    ensures prims.mac(HashedText(prims, row.payload, OrEmpty(chain[|chain| - 1].hash)))
         == prims.mac(TextAt(prims, chain, |chain| - 1))
  {
    var n := |chain| - 1;
    var x, y := HashedText(prims, row.payload, OrEmpty(chain[n].hash)), TextAt(prims, chain, n);
    assert EntryHolds(prims, chain, n);
    StoredHashIsHex(prims, chain, n);
    PrevIsHex(prims, chain, n);
    assert IsDigest(prims.mac(x)) && IsDigest(prims.mac(y));
    BytesDetermineLowerHex(prims.mac(x), prims.mac(y));
    if x == y {
      LastSeparatorSplits(Canonical(prims, row.payload), OrEmpty(chain[n].hash),
                          Canonical(prims, chain[n].payload), PrevOf(chain, n));
      CanonicalTellsInstants(prims, row.payload, chain[n].payload);
    }
  }

  /**
   * What the lock is for: two entries that were both hashed after the same one do not verify one after
   * the other, short of a collision among the texts hashed.
   */
  lemma ForkIsReportedAsTampering(prims: Primitives, chain: seq<Row>, e: Entry, now: int, f: Entry, later: int)
    requires Sound(prims) && FitsColumn(chain) && GoodChain(prims, chain)
    ensures var a, b := NewRow(prims, Latest(chain), e, now), NewRow(prims, Latest(chain), f, later);
            Intact(prims, chain + [a, b]) ==> Collide(prims, chain + [a, b], chain + [b])
  {
    var n := |chain|;
    var a, b := NewRow(prims, Latest(chain), e, now), NewRow(prims, Latest(chain), f, later);
    var forked, alone := chain + [a, b], chain + [b];
    NewRowFollows(prims, chain, e, now);
    NewRowFollows(prims, chain, f, later);
    assert PrevOf(chain + [a], n) == PrevOf(chain + [b], n) == PrevOf(forked, n) == PrevOf(alone, n);
    if Intact(prims, forked) {
      var x, y := TextAt(prims, forked, n + 1), TextAt(prims, alone, n);
      assert EntryHolds(prims, forked, n + 1);
      assert IsDigest(prims.mac(x)) && IsDigest(prims.mac(y));
      BytesDetermineLowerHex(prims.mac(x), prims.mac(y));
      if x == y {
        SameTailSamePrev(Canonical(prims, b.payload), a.hash.value, PrevOf(alone, n));
        assert IsDigest(a.hash.value) && n > 0;
        assert a.hash == chain[n - 1].hash;
        SuccessorHasItsOwnHash(prims, chain, a);
        assert TextAt(prims, alone, n - 1) == TextAt(prims, chain, n - 1);
        assert TextAt(prims, forked, n) != TextAt(prims, alone, n - 1);
      }
    }
  }

  lemma SameTailSamePrev(canonical: string, x: string, y: string)
    requires canonical + ("|" + x) == canonical + ("|" + y)
    ensures x == y
  {
    assert (canonical + ("|" + x))[|canonical| + 1..] == x;
    assert (canonical + ("|" + y))[|canonical| + 1..] == y;
  }

  // ---------------------------------------------------------------- checking several companies at once

  ghost predicate OneCompany(rows: seq<Row>) {
    forall i :: 0 <= i < |rows| ==> rows[i].payload.companyId == rows[0].payload.companyId
  }

  lemma {:induction false} ChainOfOneCompany(rows: seq<Row>, company: Option<string>)
    requires forall i :: 0 <= i < |rows| ==> rows[i].payload.companyId == company
    ensures Chain(rows, company) == rows
  {
    if rows != [] {
      ChainOfOneCompany(rows[..|rows| - 1], company);
      assert rows == rows[..|rows| - 1] + [rows[|rows| - 1]];
    }
  }

  lemma {:induction false} FirstOfItsCompany(rows: seq<Row>, k: nat)
    requires k < |rows|
    requires forall i :: 0 <= i < k ==> rows[i].payload.companyId != rows[k].payload.companyId
    ensures var chain := Chain(rows, rows[k].payload.companyId); |chain| > 0 && chain[0] == rows[k]
  {
    var company := rows[k].payload.companyId;
    if k == |rows| - 1 {
      NothingOf(rows[..k], company);
    } else {
      FirstOfItsCompany(rows[..|rows| - 1], k);
    }
  }

  lemma {:induction false} NothingOf(rows: seq<Row>, company: Option<string>)
    requires forall i :: 0 <= i < |rows| ==> rows[i].payload.companyId != company
    ensures Chain(rows, company) == []
  {
    if rows != [] { NothingOf(rows[..|rows| - 1], company); }
  }

  lemma {:induction false} FirstOfSame(rows: seq<Row>, k: nat) returns (first: nat)
    requires k < |rows|
    ensures first <= k && rows[first].payload.companyId == rows[k].payload.companyId
    ensures forall i :: 0 <= i < first ==> rows[i].payload.companyId != rows[k].payload.companyId
  {
    first := k;
    if exists i :: 0 <= i < k && rows[i].payload.companyId == rows[k].payload.companyId {
      var i :| 0 <= i < k && rows[i].payload.companyId == rows[k].payload.companyId;
      first := FirstOfSame(rows, i);
    }
  }

  lemma OneCompanyIsIntact(prims: Primitives, rows: seq<Row>)
    requires Inv(prims, rows) && OneCompany(rows)
    ensures Intact(prims, rows)
  {
    if rows != [] {
      ChainOfOneCompany(rows, rows[0].payload.companyId);
      assert GoodChain(prims, Chain(rows, rows[0].payload.companyId));
    }
  }

  /** An entry hashed as the first of a chain cannot also follow a non-empty hash. */
  lemma GenesisFollowsNothing(prims: Primitives, rows: seq<Row>, k: nat, chain: seq<Row>)
    requires Sound(prims) && 0 < k < |rows| && |chain| > 0 && chain[0] == rows[k]
    requires EntryHolds(prims, rows, k) && EntryHolds(prims, chain, 0)
    requires '|' !in PrevOf(rows, k) && PrevOf(rows, k) != ""
    ensures Collide(prims, rows, chain)
  {
    var x, y := TextAt(prims, rows, k), TextAt(prims, chain, 0);
    assert IsDigest(prims.mac(x)) && IsDigest(prims.mac(y));
    BytesDetermineLowerHex(prims.mac(x), prims.mac(y));
    if x == y {
      LastSeparatorSplits(Canonical(prims, rows[k].payload), PrevOf(rows, k), Canonical(prims, chain[0].payload), "");
    }
  }

  /** The first entry of a second company does not follow the entry before it. */
  lemma SecondCompanyBreaks(prims: Primitives, rows: seq<Row>, k: nat)
    requires Sound(prims) && FitsColumn(rows) && Inv(prims, rows) && Intact(prims, rows)
    requires 0 < k < |rows|
    requires forall i :: 0 <= i < k ==> rows[i].payload.companyId != rows[k].payload.companyId
    ensures Collide(prims, rows, Chain(rows, rows[k].payload.companyId))
  {
    var company := rows[k].payload.companyId;
    FirstOfItsCompany(rows, k);
    assert GoodChain(prims, Chain(rows, company));
    PrevIsHex(prims, rows, k);
    assert EntryHolds(prims, Chain(rows, company), 0) && EntryHolds(prims, rows, k);
    GenesisFollowsNothing(prims, rows, k, Chain(rows, company));
  }

  /**
   * The integrity check without a company reads the entries of all of them as one list. On good chains
   * it passes exactly when there is only one company among them, short of a digest collision.
   */
  lemma MixedCheckPassesExactly(prims: Primitives, rows: seq<Row>)
    requires Sound(prims) && FitsColumn(rows) && Inv(prims, rows)
    requires forall company: Option<string> :: !Collide(prims, rows, Chain(rows, company))
    ensures Intact(prims, rows) <==> OneCompany(rows)
  {
    if OneCompany(rows) {
      OneCompanyIsIntact(prims, rows);
    } else if Intact(prims, rows) {
      var k :| 0 < k < |rows| && rows[k].payload.companyId != rows[0].payload.companyId;
      var first := FirstOfSame(rows, k);
      SecondCompanyBreaks(prims, rows, first);
    }
  }

  // ---------------------------------------------------------------- the table

  class AuditLog {
    const prims: Primitives
    var rows: seq<Row>

    ghost predicate Valid()
      reads this
    {
      Sound(prims) && Inv(prims, rows)
    }

    constructor (prims: Primitives)
      requires Sound(prims)
      ensures Valid() && this.prims == prims && rows == []
    {
      this.prims, rows := prims, [];
    }

    /** One append under the company's lock: read the latest entry, then insert its successor. */
    method AppendAuditLogEntry(e: Entry, now: int)
      requires Valid()
      modifies this`rows
      ensures Valid() && rows == Append(prims, old(rows), e, now)
      ensures forall company | company != e.companyId :: Chain(rows, company) == old(Chain(rows, company))
      ensures |Chain(rows, e.companyId)| == old(|Chain(rows, e.companyId)|) + 1
    {
      AppendKeepsChains(prims, rows, e, now);
      var previous := Latest(Chain(rows, e.companyId));
      var prevHash := if previous.Some? then OrEmpty(previous.value.hash) else "";
      var createdAt := now;
      if previous.Some? && now <= previous.value.payload.createdAt {
        createdAt := previous.value.payload.createdAt + 1;
      }
      var payload := Payload(e.companyId, Some(e.userId), e.action, e.entity, e.entityId, e.oldValue, e.newValue, createdAt);
      var hash := prims.mac(HashedText(prims, payload, prevHash));
      rows := rows + [Row(payload, Some(hash), if prevHash == "" then None else Some(prevHash))];
      assert rows[..|rows| - 1] == old(rows);
    }
  }
}
