/** The hash chain: what a valid log is and why its head hash pins every entry down
    (cmd/server/main.go). */
module Chain {
  import opened Strings

  // ----- Digests -----

  predicate IsHexDigit(c: char) { '0' <= c <= '9' || 'a' <= c <= 'f' }

  predicate IsDigest(s: string) { |s| == 64 && forall i :: 0 <= i < 64 ==> IsHexDigit(s[i]) }

  /** A hex-encoded SHA-256 digest. */
  type Digest = s: string | IsDigest(s) witness seq(64, _ => '0')

  /** SHA-256 is a parameter of the whole model: any function into 64 hex characters. */
  type Hash = string -> Digest

  const GENESIS := "GENESIS"

  lemma DigestFacts(d: Digest)
    ensures '|' !in d && d != GENESIS
  {
    assert forall i :: 0 <= i < |d| ==> d[i] != '|';
    assert |GENESIS| == 7;
  }

  // ----- Rows and chains -----

  /** One stored entry as a verifier sees it: the hashed header plus the payload text, which is
      record_json in PostgreSQL and the re-marshalled record in a file. */
  datatype Row = Row(index: int, timestamp: string, prevHash: string,
                     payloadHash: string, entryHash: string, payload: string)

  function Preimage(index: nat, timestamp: string, payloadHash: string, prevHash: string): string {
    Dec(index) + "|" + timestamp + "|" + payloadHash + "|" + prevHash
  }

  /** Its layout, on an example. */
  lemma KnownPreimage()
    ensures Preimage(7, "t", "p", "q") == "7|t|p|q"
  {
  }

  /** The bar-joined pre-image determines its four parts, although the timestamp may hold bars:
      the index ends at the first bar, and the two hashes follow the last two. */
  lemma PreimageInjective(i: nat, t: string, p: string, q: string, i': nat, t': string, p': string, q': string)
    requires '|' !in p && '|' !in q && '|' !in p' && '|' !in q'
    requires Preimage(i, t, p, q) == Preimage(i', t', p', q')
    ensures i == i' && t == t' && p == p' && q == q'
  {
    CutAtLast('|', Dec(i) + "|" + t + "|" + p, q, Dec(i') + "|" + t' + "|" + p', q');
    CutAtLast('|', Dec(i) + "|" + t, p, Dec(i') + "|" + t', p');
    DecLacks(i, '|');
    DecLacks(i', '|');
    CutAtFirst('|', Dec(i), t, Dec(i'), t');
    DecInjective(i, i');
  }

  function Head(rows: seq<Row>): string {
    if rows == [] then GENESIS else rows[|rows| - 1].entryHash
  }

  predicate Links(h: Hash, index: nat, prevHash: string, row: Row) {
    && row.index == index
    && row.prevHash == prevHash
    && row.payloadHash == h(row.payload)
    && row.entryHash == h(Preimage(index, row.timestamp, row.payloadHash, prevHash))
  }

  predicate ValidChain(h: Hash, rows: seq<Row>) {
    rows == [] ||
    var n := |rows| - 1;
    ValidChain(h, rows[..n]) && Links(h, n + 1, Head(rows[..n]), rows[n])
  }

  /** The row both Append methods build on top of a chain. */
  function NextRow(h: Hash, rows: seq<Row>, timestamp: string, payload: string): Row {
    Row(|rows| + 1, timestamp, Head(rows), h(payload),
        h(Preimage(|rows| + 1, timestamp, h(payload), Head(rows))), payload)
  }

  lemma ValidSnoc(h: Hash, rows: seq<Row>, row: Row)
    ensures ValidChain(h, rows + [row]) <==> ValidChain(h, rows) && Links(h, |rows| + 1, Head(rows), row)
  {
    assert (rows + [row])[..|rows|] == rows;
  }

  /** Every prefix of a valid chain is valid, so no verifier that sees only the rows can notice a
      deleted tail. */
  lemma {:induction false} ValidPrefix(h: Hash, rows: seq<Row>, n: nat)
    requires n <= |rows| && ValidChain(h, rows)
    ensures ValidChain(h, rows[..n])
  {
    if n < |rows| {
      ValidPrefix(h, rows[..|rows| - 1], n);
      assert rows[..|rows| - 1][..n] == rows[..n];
    } else {
      assert rows[..n] == rows;
    }
  }

  /** The rows of a valid chain carry the indexes 1, 2, ..., n, and each names its predecessor. */
  lemma ValidAt(h: Hash, rows: seq<Row>, i: nat)
    requires i < |rows| && ValidChain(h, rows)
    ensures Links(h, i + 1, Head(rows[..i]), rows[i])
  {
    ValidPrefix(h, rows, i + 1);
    assert rows[..i + 1][..i] == rows[..i];
  }

  lemma HeadIsGenesisOrDigest(h: Hash, rows: seq<Row>)
    requires ValidChain(h, rows)
    ensures '|' !in Head(rows)
    ensures rows != [] ==> IsDigest(Head(rows))
  {
    if rows != [] {
      var last := rows[|rows| - 1];
      DigestFacts(last.entryHash);
    }
  }

  // ----- The head hash commits to the whole log -----

  /** `s` is one of the two byte strings that verifying `row` feeds to the hash. */
  predicate FedBy(row: Row, s: string) {
    || s == row.payload
    || (row.index >= 0 && s == Preimage(row.index, row.timestamp, row.payloadHash, row.prevHash))
  }

  predicate Fed(rows: seq<Row>, s: string) { exists i :: 0 <= i < |rows| && FedBy(rows[i], s) }

  predicate Collision(h: Hash, x: string, y: string) { x != y && h(x) == h(y) }

  lemma FedGrows(rows: seq<Row>, n: nat, s: string)
    requires n <= |rows| && Fed(rows[..n], s)
    ensures Fed(rows, s)
  {
    var i :| 0 <= i < n && FedBy(rows[..n][i], s);
    assert FedBy(rows[i], s);
  }

  /** One step down the chain: equal entry hashes mean equal rows and equal predecessors, or a
      collision between the strings the two rows feed to the hash. */
  lemma EntryHashCommits(h: Hash, i: nat, prev: string, r: Row, i': nat, prev': string, r': Row)
      returns (x: string, y: string)
    requires Links(h, i, prev, r) && Links(h, i', prev', r') && r.entryHash == r'.entryHash
    requires '|' !in prev && '|' !in prev'
    ensures r == r' || (Collision(h, x, y) && FedBy(r, x) && FedBy(r', y))
  {
    x := Preimage(i, r.timestamp, r.payloadHash, prev);
    y := Preimage(i', r'.timestamp, r'.payloadHash, prev');
    if x == y {
      DigestFacts(r.payloadHash);
      DigestFacts(r'.payloadHash);
      PreimageInjective(i, r.timestamp, r.payloadHash, prev, i', r'.timestamp, r'.payloadHash, prev');
      x, y := r.payload, r'.payload;
    }
  }

  /** The reduction behind tamper evidence, with no assumption on the hash: two logs that verify
      and report the same head are the same log in every field and every payload byte, or the two
      logs themselves exhibit a SHA-256 collision. */
  lemma {:induction false} HeadCommits(h: Hash, a: seq<Row>, b: seq<Row>) returns (x: string, y: string)
    requires ValidChain(h, a) && ValidChain(h, b)
    requires Head(a) == Head(b)
    ensures a == b || (Collision(h, x, y) && Fed(a, x) && Fed(b, y))
    decreases |a|
  {
    x, y := "", "";
    if a == [] || b == [] {
      HeadIsGenesisOrDigest(h, a);
      HeadIsGenesisOrDigest(h, b);
      return;
    }
    var a', r := a[..|a| - 1], a[|a| - 1];
    var b', s := b[..|b| - 1], b[|b| - 1];
    HeadIsGenesisOrDigest(h, a');
    HeadIsGenesisOrDigest(h, b');
    x, y := EntryHashCommits(h, |a|, Head(a'), r, |b|, Head(b'), s);
    if r == s {
      x, y := HeadCommits(h, a', b');
      if a' == b' {
        assert a == a' + [r] && b == b' + [s];
      } else {
        FedGrows(a, |a| - 1, x);
        FedGrows(b, |b| - 1, y);
      }
    }
  }

  /** Tamper evidence: where the hash is collision-free on the strings the two logs hash, a log
      that verifies against a recorded head is the recorded log.  In particular deleting a
      non-empty tail always changes the head. */
  lemma HeadPinsLog(h: Hash, a: seq<Row>, b: seq<Row>)
    requires ValidChain(h, a) && ValidChain(h, b)
    requires forall x, y :: Fed(a, x) && Fed(b, y) ==> !Collision(h, x, y)
    ensures Head(a) == Head(b) <==> a == b
  {
    if Head(a) == Head(b) {
      var x, y := HeadCommits(h, a, b);
    }
  }
}
