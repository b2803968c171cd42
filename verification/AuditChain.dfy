/** The in-memory audit chain: appending, verifying, and what its last hash commits to. */
module AuditChain {
  import opened JsStrings
  import opened CanonicalJson
  import opened CanonicalJsonProofs

  /** SHA-256 is a parameter; the results that need it take it to be injective. */
  type Digest = JsString -> JsString

  ghost predicate Injective(sha: Digest) {
    forall x, y :: sha(x) == sha(y) ==> x == y
  }

  function Zeros(n: nat): JsString {
    if n == 0 then [] else [48] + Zeros(n - 1)
  }

  const GENESIS: JsString := Zeros(64)

  /** `sequenceNumber`, `integrity` and `previousRecordHash` */
  const SEQUENCE_KEY: JsString := [115, 101, 113, 117, 101, 110, 99, 101, 78, 117, 109, 98, 101, 114]
  const INTEGRITY_KEY: JsString := [105, 110, 116, 101, 103, 114, 105, 116, 121]
  const PREVIOUS_KEY: JsString := [112, 114, 101, 118, 105, 111, 117, 115, 82, 101, 99, 111, 114, 100, 72, 97, 115, 104]

  /** A stored record: its redacted content, its place in the sequence and its two hashes. */
  datatype Record = Record(
    content: seq<Field>,
    sequenceNumber: int,
    previousRecordHash: JsString,
    recordHash: JsString)

  /** The object a record hash is computed over. */
  function Preimage(content: seq<Field>, sequenceNumber: int, previousRecordHash: JsString): Json {
    Obj(content + [Field(SEQUENCE_KEY, Num(sequenceNumber)),
                   Field(INTEGRITY_KEY, Obj([Field(PREVIOUS_KEY, Str(previousRecordHash))]))])
  }

  function HashOf(sha: Digest, content: seq<Field>, sequenceNumber: int, previousRecordHash: JsString): JsString {
    sha(Canonical(Preimage(content, sequenceNumber, previousRecordHash)))
  }

  ghost predicate ValidContent(content: seq<Field>) {
    && Printable(Obj(content))
    && SEQUENCE_KEY !in Keys(content) && INTEGRITY_KEY !in Keys(content)
  }

  function PreviousHash(records: seq<Record>, i: nat): JsString
    requires i <= |records|
  {
    if i == 0 then GENESIS else records[i - 1].recordHash
  }

  /** Record `i` carries its position, the hash before it, and the hash of itself. */
  predicate Linked(sha: Digest, records: seq<Record>, i: nat)
    requires i < |records|
  {
    && records[i].sequenceNumber == i + 1
    && records[i].previousRecordHash == PreviousHash(records, i)
    && records[i].recordHash == HashOf(sha, records[i].content, i + 1, PreviousHash(records, i))
  }

  ghost predicate Accepted(sha: Digest, records: seq<Record>) {
    forall i :: 0 <= i < |records| ==> Linked(sha, records, i)
  }

  function Appended(sha: Digest, records: seq<Record>, content: seq<Field>): seq<Record> {
    var n, prev := |records| + 1, PreviousHash(records, |records|);
    records + [Record(content, n, prev, HashOf(sha, content, n, prev))]
  }

  class AuditLogger {
    const sha: Digest
    var records: seq<Record>
    var sequence: int
    var lastRecordHash: JsString
    var appendInProgress: bool

    /** The counters describe the chain, and it verifies. */
    ghost predicate Valid()
      reads this
    {
      && Accepted(sha, records)
      && sequence == |records| + 1
      && lastRecordHash == PreviousHash(records, |records|)
      && !appendInProgress
    }

    constructor (sha: Digest)
      ensures Valid() && records == [] && this.sha == sha
    {
      this.sha := sha;
      records, sequence, lastRecordHash, appendInProgress := [], 1, GENESIS, false;
    }

    /** Appends one record; earlier records stay as they were and the chain still verifies. */
    method Log(content: seq<Field>) returns (stored: Record)
      requires Valid()
      modifies this
      ensures Valid()
      ensures records == Appended(sha, old(records), content) && stored == records[|records| - 1]
    {
      appendInProgress := true;
      var sequenceNumber := sequence;
      sequence := sequence + 1;
      var previousRecordHash := lastRecordHash;
      var currentHash := HashOf(sha, content, sequenceNumber, previousRecordHash);
      stored := Record(content, sequenceNumber, previousRecordHash, currentHash);
      lastRecordHash := currentHash;
      ghost var before := records;
      records := records + [stored];
      AppendAccepted(sha, before, content);
      appendInProgress := false;
    }

    /** Accepts exactly the chains in which every record is linked. */
    method VerifyIntegrity() returns (ok: bool)
      ensures ok <==> Accepted(sha, records)
    {
      var prevHash := GENESIS;
      var i := 0;
      while i < |records|
        invariant 0 <= i <= |records| && prevHash == PreviousHash(records, i)
        invariant LinkedBefore(sha, records, i)
      {
        var rec := records[i];
        LinkedIs(sha, records, i);
        if rec.sequenceNumber != i + 1 || rec.previousRecordHash != prevHash {
          return false;
        }
        if rec.recordHash != HashOf(sha, rec.content, rec.sequenceNumber, prevHash) {
          return false;
        }
        prevHash := rec.recordHash;
        i := i + 1;
      }
      ok := true;
    }

    method Clear()
      modifies this
      ensures Valid() && records == []
    {
      records, sequence, lastRecordHash, appendInProgress := [], 1, GENESIS, false;
    }
  }

  ghost predicate LinkedBefore(sha: Digest, records: seq<Record>, n: nat)
    requires n <= |records|
  {
    forall j :: 0 <= j < n ==> Linked(sha, records, j)
  }

  lemma LinkedIs(sha: Digest, records: seq<Record>, i: nat)
    requires i < |records| && LinkedBefore(sha, records, i)
    ensures var (r, prev) := (records[i], PreviousHash(records, i));
      var linked := r.sequenceNumber == i + 1 && r.previousRecordHash == prev
                    && r.recordHash == HashOf(sha, r.content, r.sequenceNumber, prev);
      (linked ==> LinkedBefore(sha, records, i + 1)) && (!linked ==> !Accepted(sha, records))
  {
    if Accepted(sha, records) {
      assert Linked(sha, records, i);
    }
  }

  lemma AppendAccepted(sha: Digest, records: seq<Record>, content: seq<Field>)
    requires Accepted(sha, records)
    ensures Accepted(sha, Appended(sha, records, content))
  {
    var after := Appended(sha, records, content);
    forall i | 0 <= i < |after| ensures Linked(sha, after, i) {
      assert PreviousHash(after, i) == PreviousHash(records, i);
      if i < |records| {
        assert Linked(sha, records, i);
      }
    }
  }

  /** The chain a run of `log` calls leaves. */
  function Logged(sha: Digest, contents: seq<seq<Field>>): seq<Record> {
    if contents == [] then []
    else Appended(sha, Logged(sha, contents[..|contents| - 1]), contents[|contents| - 1])
  }

  /** Every run of `log` leaves a chain that verifies, with the logged contents in order. */
  lemma {:induction false} LoggedAccepted(sha: Digest, contents: seq<seq<Field>>)
    ensures Accepted(sha, Logged(sha, contents)) && |Logged(sha, contents)| == |contents|
    ensures forall i :: 0 <= i < |contents| ==> Logged(sha, contents)[i].content == contents[i]
  {
    if contents != [] {
      var before := contents[..|contents| - 1];
      LoggedAccepted(sha, before);
      AppendAccepted(sha, Logged(sha, before), contents[|contents| - 1]);
    }
  }

  lemma {:induction false} ZerosAre(n: nat)
    ensures |Zeros(n)| == n && forall i :: 0 <= i < n ==> Zeros(n)[i] == 48
  {
    if n > 0 {
      ZerosAre(n - 1);
    }
  }

  /** What is stored: records are numbered from 1, the first names 64 zeros as the hash before it and every other the
      hash of the record before it, and each hash is over the canonical text of the content, that number and that
      hash. */
  lemma LoggedRecords(sha: Digest, contents: seq<seq<Field>>, i: nat)
    requires i < |contents|
    ensures |Logged(sha, contents)| == |contents|
    ensures var (r, chain) := (Logged(sha, contents)[i], Logged(sha, contents));
      && r.content == contents[i] && r.sequenceNumber == i + 1
      && (i > 0 ==> r.previousRecordHash == chain[i - 1].recordHash)
      && (i == 0 ==> |r.previousRecordHash| == 64 && forall k :: 0 <= k < 64 ==> r.previousRecordHash[k] == 48)
      && r.recordHash == sha(Canonical(Obj(contents[i] + [
           Field(SEQUENCE_KEY, Num(r.sequenceNumber)),
           Field(INTEGRITY_KEY, Obj([Field(PREVIOUS_KEY, Str(r.previousRecordHash))]))])))
  {
    LoggedAccepted(sha, contents);
    assert Linked(sha, Logged(sha, contents), i);
    ZerosAre(64);
  }

  // ----- what the last hash commits to -----------------------------------------

  lemma PreimagePrintable(content: seq<Field>, n: int, prev: JsString)
    requires ValidContent(content)
    ensures Printable(Preimage(content, n, prev))
  {
    var fields := Preimage(content, n, prev).fields;
    forall i, j | 0 <= i < j < |fields| ensures fields[i].key != fields[j].key {
      assert i < |content| ==> Keys(content)[i] == fields[i].key;
      assert j < |content| ==> Keys(content)[j] == fields[j].key;
      assert SEQUENCE_KEY[0] != INTEGRITY_KEY[0];
    }
    assert Printable(Obj([Field(PREVIOUS_KEY, Str(prev))]));
    forall i | 0 <= i < |fields| ensures fields[i].value.Undefined? || Printable(fields[i].value) {
      assert i < |content| ==> fields[i] == content[i];
    }
  }

  /** Preimages that agree up to key order agree on the position and the previous hash. */
  lemma SamePreimage(c: seq<Field>, n: int, p: JsString, d: seq<Field>, m: int, q: JsString)
    requires Same(Preimage(c, n, p), Preimage(d, m, q))
    ensures n == m && p == q
  {
    var fs, gs := Preimage(c, n, p).fields, Preimage(d, m, q).fields;
    assert fs[|c|].key == gs[|d|].key;
    assert Same(fs[|c|].value, gs[|d|].value);
    assert fs[|c| + 1].key == gs[|d| + 1].key;
    assert Same(fs[|c| + 1].value, gs[|d| + 1].value);
    var f, g := fs[|c| + 1].value, gs[|d| + 1].value;
    assert Same(f.fields[0].value, g.fields[0].value);
  }

  /** The same content up to key order, the same place in the sequence and the same hashes. */
  ghost predicate SameRecord(a: Record, b: Record) {
    && Same(Obj(a.content), Obj(b.content))
    && a.sequenceNumber == b.sequenceNumber && a.previousRecordHash == b.previousRecordHash
    && a.recordHash == b.recordHash
  }

  /** A key of the content is one of the preimage's, and the two keys added to it are not among them. */
  lemma ContentKeys(content: seq<Field>, n: int, prev: JsString)
    requires ValidContent(content)
    ensures forall k :: k in Keys(content) <==>
      k in Keys(Preimage(content, n, prev).fields) && k != SEQUENCE_KEY && k != INTEGRITY_KEY
  {
    var fields := Preimage(content, n, prev).fields;
    assert Keys(fields) == Keys(content) + [SEQUENCE_KEY, INTEGRITY_KEY];
  }

  lemma SameContent(c: seq<Field>, n: int, p: JsString, d: seq<Field>, m: int, q: JsString)
    requires ValidContent(c) && ValidContent(d) && Same(Preimage(c, n, p), Preimage(d, m, q))
    ensures Same(Obj(c), Obj(d))
  {
    var (fs, gs) := (Preimage(c, n, p).fields, Preimage(d, m, q).fields);
    ContentKeys(c, n, p);
    ContentKeys(d, m, q);
    forall i, j | 0 <= i < |c| && 0 <= j < |d| && c[i].key == d[j].key ensures Same(c[i].value, d[j].value) {
      assert fs[i] == c[i] && gs[j] == d[j];
    }
  }

  ghost predicate SameChain(a: seq<Record>, b: seq<Record>) {
    |a| == |b| && forall i :: 0 <= i < |a| ==> SameRecord(a[i], b[i])
  }

  ghost predicate ValidContents(records: seq<Record>) {
    forall i :: 0 <= i < |records| ==> ValidContent(records[i].content)
  }

  lemma HashDecidesPreimage(sha: Digest, c: seq<Field>, n: int, p: JsString, d: seq<Field>, m: int, q: JsString)
    requires Injective(sha) && ValidContent(c) && ValidContent(d)
    requires HashOf(sha, c, n, p) == HashOf(sha, d, m, q)
    ensures Same(Obj(c), Obj(d)) && n == m && p == q
  {
    assert Canonical(Preimage(c, n, p)) == Canonical(Preimage(d, m, q));
    PreimagePrintable(c, n, p);
    PreimagePrintable(d, m, q);
    CanonicalDecidesSame(Preimage(c, n, p), Preimage(d, m, q));
    SamePreimage(c, n, p, d, m, q);
    SameContent(c, n, p, d, m, q);
  }

  lemma HashDecidesRecord(sha: Digest, a: seq<Record>, b: seq<Record>, i: nat, j: nat)
    requires Injective(sha) && Accepted(sha, a) && Accepted(sha, b) && ValidContents(a) && ValidContents(b)
    requires i < |a| && j < |b| && a[i].recordHash == b[j].recordHash
    ensures i == j && SameRecord(a[i], b[j]) && a[i].previousRecordHash == b[j].previousRecordHash
  {
    LinkedHash(sha, a, i);
    LinkedHash(sha, b, j);
    HashDecidesPreimage(sha, a[i].content, a[i].sequenceNumber, a[i].previousRecordHash,
                        b[j].content, b[j].sequenceNumber, b[j].previousRecordHash);
  }

  lemma LinkedHash(sha: Digest, a: seq<Record>, i: nat)
    requires Accepted(sha, a) && ValidContents(a) && i < |a|
    ensures a[i].sequenceNumber == i + 1 && ValidContent(a[i].content)
    ensures a[i].recordHash == HashOf(sha, a[i].content, a[i].sequenceNumber, a[i].previousRecordHash)
  {
    assert Linked(sha, a, i);
  }

  lemma {:induction false} PrefixesAgree(sha: Digest, a: seq<Record>, b: seq<Record>, n: nat)
    requires Injective(sha) && Accepted(sha, a) && Accepted(sha, b) && ValidContents(a) && ValidContents(b)
    requires 0 < n <= |a| && n <= |b| && a[n - 1].recordHash == b[n - 1].recordHash
    ensures forall i :: 0 <= i < n ==> SameRecord(a[i], b[i])
    decreases n
  {
    HashDecidesRecord(sha, a, b, n - 1, n - 1);
    if n > 1 {
      assert a[n - 2].recordHash == b[n - 2].recordHash by {
        assert Linked(sha, a, n - 1) && Linked(sha, b, n - 1);
      }
      PrefixesAgree(sha, a, b, n - 1);
    }
  }

  /**
   * The last hash of an accepted chain commits to all of it: two accepted chains end in the same
   * hash exactly when they have the same length and the same records up to key order.
   */
  lemma LastHashCommits(sha: Digest, a: seq<Record>, b: seq<Record>)
    requires Injective(sha) && Accepted(sha, a) && Accepted(sha, b) && ValidContents(a) && ValidContents(b)
    requires a != [] && b != []
    ensures a[|a| - 1].recordHash == b[|b| - 1].recordHash <==> SameChain(a, b)
  {
    if a[|a| - 1].recordHash == b[|b| - 1].recordHash {
      HashDecidesRecord(sha, a, b, |a| - 1, |b| - 1);
      PrefixesAgree(sha, a, b, |a|);
    }
    if SameChain(a, b) {
      assert SameRecord(a[|a| - 1], b[|b| - 1]);
    }
  }

  /** Rewriting any record of an accepted chain, beyond key order, is noticed. */
  lemma TamperingIsNoticed(sha: Digest, chain: seq<Record>, forged: seq<Record>, i: nat)
    requires Injective(sha) && Accepted(sha, chain) && ValidContents(chain) && ValidContents(forged)
    requires |forged| == |chain| && i < |chain| && forged[|chain| - 1].recordHash == chain[|chain| - 1].recordHash
    requires !SameRecord(chain[i], forged[i])
    ensures !Accepted(sha, forged)
  {
    if Accepted(sha, forged) {
      LastHashCommits(sha, chain, forged);
      assert false;
    }
  }
}
