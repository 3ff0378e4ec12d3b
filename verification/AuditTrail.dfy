/**
 * The audit trail entry by entry: what each append records, what it follows, and what two trails with one
 * end have in common when no two texts share a digest.
 */
module AuditTrail {
  import opened Wrappers
  import opened AuditChain

  /** The newest earlier entry of the company. */
  ghost predicate Precedes(rows: seq<Row>, company: Option<string>, j: int, i: int) {
    && 0 <= j < i <= |rows| && rows[j].payload.companyId == company
    && forall k :: j < k < i ==> rows[k].payload.companyId != company
  }

  ghost predicate NoneBefore(rows: seq<Row>, company: Option<string>, i: int) {
    0 <= i <= |rows| && forall k :: 0 <= k < i ==> rows[k].payload.companyId != company
  }

  /** The last entry of a company's chain is its newest in the table; -1 stands for none. */
  lemma {:induction false} ChainEnd(rows: seq<Row>, company: Option<string>) returns (j: int)
    ensures j < 0 ==> Chain(rows, company) == [] && NoneBefore(rows, company, |rows|)
    ensures j >= 0 ==> Precedes(rows, company, j, |rows|)
    ensures j >= 0 ==> |Chain(rows, company)| > 0 && Chain(rows, company)[|Chain(rows, company)| - 1] == rows[j]
  {
    if rows == [] {
      j := -1;
    } else if rows[|rows| - 1].payload.companyId == company {
      j := |rows| - 1;
    } else {
      j := ChainEnd(rows[..|rows| - 1], company);
      assert forall k :: 0 <= k < |rows| - 1 ==> rows[..|rows| - 1][k] == rows[k];
    }
  }

  lemma OnePrecedes(rows: seq<Row>, company: Option<string>, j: int, k: int, i: int)
    requires Precedes(rows, company, j, i)
    ensures !NoneBefore(rows, company, i) && (Precedes(rows, company, k, i) ==> k == j)
  {}

  /** The entry at `i` records the call, is newer than the one it follows, and is hashed with that one's hash. */
  ghost predicate Follows(prims: Primitives, rows: seq<Row>, i: int, c: Call)
    requires 0 <= i < |rows|
  {
    var row, e := rows[i], c.entry;
    && row.payload == Payload(e.companyId, Some(e.userId), e.action, e.entity, e.entityId, e.oldValue, e.newValue, row.payload.createdAt)
    && (NoneBefore(rows, e.companyId, i) ==>
          row.payload.createdAt == c.now && row.prevHash.None? && row.hash == Some(prims.mac(Canonical(prims, row.payload) + "|")))
    && (forall j :: Precedes(rows, e.companyId, j, i) ==>
          && row.payload.createdAt == (if rows[j].payload.createdAt < c.now then c.now else rows[j].payload.createdAt + 1)
          && rows[j].hash.Some? && row.prevHash == rows[j].hash
          && row.hash == Some(prims.mac(Canonical(prims, row.payload) + ("|" + rows[j].hash.value))))
  }

  lemma SameBefore(rows: seq<Row>, more: seq<Row>, company: Option<string>, i: nat)
    requires i <= |rows| <= |more| && more[..|rows|] == rows
    ensures NoneBefore(more, company, i) <==> NoneBefore(rows, company, i)
    ensures forall j :: Precedes(more, company, j, i) <==> Precedes(rows, company, j, i)
  {
    assert forall k :: 0 <= k < |rows| ==> more[k] == more[..|rows|][k];
  }

  lemma FirstRow(prims: Primitives, e: Entry, now: int)
    ensures var row := NewRow(prims, None, e, now);
            && row.payload == Payload(e.companyId, Some(e.userId), e.action, e.entity, e.entityId, e.oldValue, e.newValue, now)
            && row.prevHash.None? && row.hash == Some(prims.mac(Canonical(prims, row.payload) + "|"))
  {
    assert "|" + "" == "|";
  }

  lemma NextRow(prims: Primitives, previous: Row, e: Entry, now: int)
    requires previous.hash.Some? && previous.hash.value != ""
    ensures var row, newest := NewRow(prims, Some(previous), e, now), previous.payload.createdAt;
            && row.payload == Payload(e.companyId, Some(e.userId), e.action, e.entity, e.entityId, e.oldValue, e.newValue,
                                      if newest < now then now else newest + 1)
            && row.prevHash == previous.hash
            && row.hash == Some(prims.mac(Canonical(prims, row.payload) + ("|" + previous.hash.value)))
  {}

  lemma FirstFollows(prims: Primitives, more: seq<Row>, i: nat, c: Call)
    requires i < |more| && more[i] == NewRow(prims, None, c.entry, c.now) && NoneBefore(more, c.entry.companyId, i)
    ensures Follows(prims, more, i, c)
  {
    FirstRow(prims, c.entry, c.now);
    assert forall j :: !Precedes(more, c.entry.companyId, j, i);
  }

  lemma NextFollows(prims: Primitives, more: seq<Row>, i: nat, c: Call, j: nat)
    requires j < i < |more| && Precedes(more, c.entry.companyId, j, i)
    requires more[i] == NewRow(prims, Some(more[j]), c.entry, c.now) && more[j].hash.Some? && more[j].hash.value != ""
    ensures Follows(prims, more, i, c)
  {
    NextRow(prims, more[j], c.entry, c.now);
    forall k ensures !NoneBefore(more, c.entry.companyId, i) && (Precedes(more, c.entry.companyId, k, i) ==> k == j) {
      OnePrecedes(more, c.entry.companyId, j, k, i);
    }
  }

  lemma AppendFollows(prims: Primitives, rows: seq<Row>, c: Call)
    requires Sound(prims) && Inv(prims, rows)
    ensures var more := Append(prims, rows, c.entry, c.now);
            |more| == |rows| + 1 && more[..|rows|] == rows && Follows(prims, more, |rows|, c)
  {
    var company := c.entry.companyId;
    var chain, more := Chain(rows, company), Append(prims, rows, c.entry, c.now);
    assert GoodChain(prims, chain);
    var end := ChainEnd(rows, company);
    LatestOfAscending(chain);
    SameBefore(rows, more, company, |rows|);
    if end < 0 {
      FirstFollows(prims, more, |rows|, c);
    } else {
      EndHasAHash(prims, chain);
      NextFollows(prims, more, |rows|, c, end);
    }
  }

  lemma EndHasAHash(prims: Primitives, chain: seq<Row>)
    requires Sound(prims) && |chain| > 0 && Intact(prims, chain)
    ensures chain[|chain| - 1].hash.Some? && chain[|chain| - 1].hash.value != ""
  {
    assert EntryHolds(prims, chain, |chain| - 1);
    HashIsNotEmpty(prims, chain, |chain| - 1);
  }

  lemma HashIsNotEmpty(prims: Primitives, rows: seq<Row>, i: nat)
    requires Sound(prims) && i < |rows| && EntryHolds(prims, rows, i)
    ensures rows[i].hash.Some? && rows[i].hash.value != ""
  {
    assert IsDigest(prims.mac(HashedText(prims, rows[i].payload, PrevOf(rows, i))));
  }

  lemma FollowsStays(prims: Primitives, rows: seq<Row>, more: seq<Row>, i: nat, c: Call)
    requires i < |rows| <= |more| && more[..|rows|] == rows && Follows(prims, rows, i, c)
    ensures Follows(prims, more, i, c)
  {
    assert forall k :: 0 <= k < |rows| ==> more[k] == more[..|rows|][k];
    SameBefore(rows, more, c.entry.companyId, i);
  }

  /**
   * In every run each call is recorded, in its place and as it was made: dated by its clock, or a
   * millisecond after the entry of its company before it, and hashed with that entry's hash.
   */
  lemma {:induction false} RunRecordsEveryCall(prims: Primitives, calls: seq<Call>)
    requires Sound(prims)
    ensures AllFollow(prims, Run(prims, calls), calls)
  {
    if calls != [] {
      var n := |calls| - 1;
      RunRecordsEveryCall(prims, calls[..n]);
      RunKeepsChains(prims, calls[..n]);
      OneMoreFollows(prims, Run(prims, calls[..n]), calls[..n], calls[n]);
      assert calls == calls[..n] + [calls[n]];
    }
  }

  ghost predicate AllFollow(prims: Primitives, rows: seq<Row>, calls: seq<Call>) {
    |rows| == |calls| && forall i :: 0 <= i < |calls| ==> Follows(prims, rows, i, calls[i])
  }

  lemma OneMoreFollows(prims: Primitives, rows: seq<Row>, calls: seq<Call>, c: Call)
    requires Sound(prims) && Inv(prims, rows) && AllFollow(prims, rows, calls)
    ensures AllFollow(prims, Append(prims, rows, c.entry, c.now), calls + [c])
  {
    AppendFollows(prims, rows, c);
    forall i | 0 <= i < |rows| ensures Follows(prims, Append(prims, rows, c.entry, c.now), i, calls[i]) {
      FollowsStays(prims, rows, Append(prims, rows, c.entry, c.now), i, calls[i]);
    }
  }

  /** Where no two texts share a digest, two trails that verify and end alike are alike, entry by entry. */
  lemma EqualEndsEqualTrails(prims: Primitives, a: seq<Row>, b: seq<Row>)
    requires Sound(prims) && FitsColumn(a) && FitsColumn(b) && Intact(prims, a) && Intact(prims, b) && |a| > 0 && |b| > 0
    requires forall t, u :: prims.mac(t) == prims.mac(u) ==> t == u
    requires a[|a| - 1].hash == b[|b| - 1].hash
    ensures |a| == |b|
    ensures forall i :: 0 <= i < |a| ==> Canonical(prims, a[i].payload) == Canonical(prims, b[i].payload)
    ensures forall i :: 0 <= i < |a| && SeparatorFree(Fields(a[i].payload)) ==>
              Fields(a[i].payload) == Fields(b[i].payload) && a[i].payload.createdAt == b[i].payload.createdAt
  {
    EqualEndsEqualHistory(prims, a, b);
    forall i | 0 <= i < |a| && SeparatorFree(Fields(a[i].payload))
      ensures Fields(a[i].payload) == Fields(b[i].payload) && a[i].payload.createdAt == b[i].payload.createdAt
    {
      SeparatorFreeContentIsDetermined(prims, a[i].payload, b[i].payload);
    }
  }

  // ---------------------------------------------------------------- what a stored hash must be

  /** The digit in lower case. */
  function Lower(c: char): char {
    if 'A' <= c <= 'F' then (c as int + 32) as char else c
  }

  function Lowered(s: string): string {
    seq(|s|, i requires 0 <= i < |s| => Lower(s[i]))
  }

  lemma {:induction false} SameBytesExactly(s: string, digest: string)
    requires |s| == |digest| && |s| % 2 == 0 && LowerHex(digest)
    ensures HexBytes(s) == HexBytes(digest) <==> Lowered(s) == digest
  {
    if |s| >= 2 {
      assert LowerHex(digest[2..]);
      SameBytesExactly(s[2..], digest[2..]);
      SameFirstByte(s, digest);
      SameFirstLetters(s, digest);
    }
  }

  /** A list of bytes against that of a digest: the first pair, and the rest. */
  lemma SameFirstByte(s: string, digest: string)
    requires |s| >= 2 && |digest| >= 2 && LowerHex(digest)
    ensures HexBytes(s) == HexBytes(digest)
       <==> Lower(s[0]) == digest[0] && Lower(s[1]) == digest[1] && HexBytes(s[2..]) == HexBytes(digest[2..])
  {
    SameDigitExactly(s[0], digest[0]);
    SameDigitExactly(s[1], digest[1]);
    FirstByte(s);
    FirstByte(digest);
    assert |HexBytes(s)| > 0 ==> HexBytes(s) == [HexBytes(s)[0]] + HexBytes(s)[1..];
    assert HexBytes(digest) == [HexBytes(digest)[0]] + HexBytes(digest)[1..];
  }

  lemma SameFirstLetters(s: string, digest: string)
    requires |s| == |digest| >= 2
    ensures Lowered(s) == digest
       <==> Lower(s[0]) == digest[0] && Lower(s[1]) == digest[1] && Lowered(s[2..]) == digest[2..]
  {
    assert Lowered(s) == [Lower(s[0]), Lower(s[1])] + Lowered(s[2..]);
    assert digest == [digest[0], digest[1]] + digest[2..];
  }

  lemma FirstByte(s: string)
    requires |s| >= 2
    ensures HexDigit(s[0]).None? || HexDigit(s[1]).None? ==> HexBytes(s) == []
    ensures HexDigit(s[0]).Some? && HexDigit(s[1]).Some? ==>
              |HexBytes(s)| > 0 && HexBytes(s)[0] == 16 * HexDigit(s[0]).value + HexDigit(s[1]).value
              && HexBytes(s)[1..] == HexBytes(s[2..])
  {}

  lemma SameDigitExactly(c: char, d: char)
    requires '0' <= d <= '9' || 'a' <= d <= 'f'
    ensures HexDigit(d).Some? && HexDigit(d).value < 16
    ensures HexDigit(c) == HexDigit(d) <==> Lower(c) == d
    ensures HexDigit(c).Some? ==> HexDigit(c).value < 16
  {}

  /** An entry of full length verifies exactly when its hash is the digest of its text, in either case of the letters. */
  lemma VerifiesExactly(prims: Primitives, p: Payload, prev: string, stored: Option<string>)
    requires Sound(prims) && (stored.Some? ==> |stored.value| == 64)
    ensures VerifyHash(prims, p, prev, stored)
       <==> stored.Some? && Lowered(stored.value) == prims.mac(Canonical(prims, p) + ("|" + prev))
  {
    var digest := prims.mac(HashedText(prims, p, prev));
    assert IsDigest(digest);
    if stored.Some? { SameBytesExactly(stored.value, digest); }
  }
}
