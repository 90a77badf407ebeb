/**
 * Repairing a hash-chained ledger (scripts/repair-table-ledger.ts), judged by the ledger's own
 * verification (packages/goal/ledger.ts). Hash, canonical form and signature are functions about which
 * nothing is assumed unless a lemma says so.
 */
module TableLedger {
  import opened Seqs

  datatype Json = Json(text: string)
  datatype Entry = Entry(
    number: int, prevHash: string, hash: string, ts: int, kind: string, payload: Option<Json>, sig: string)

  datatype Crypto = Crypto(
    sha: string -> string, canonical: Json -> string, emptyObject: Json,
    signed: (string, string) -> bool, zeroHash: string)

  /** `e.payload ?? {}` */
  function Body(c: Crypto, e: Entry): Json {
    match e.payload
    case None => c.emptyObject
    case Some(p) => p
  }

  function Canon(c: Crypto, e: Entry): string {
    c.canonical(Body(c, e))
  }

  function Relink(c: Crypto, e: Entry, number: int, prev: string): Entry {
    e.(number := number, prevHash := prev, hash := c.sha(prev + Canon(c, e)))
  }

  function HeadHash(genesis: string, chain: seq<Entry>): string {
    if chain == [] then genesis else chain[|chain| - 1].hash
  }

  function Rechained(c: Crypto, genesis: string, entries: seq<Entry>): (out: seq<Entry>)
    ensures |out| == |entries|
  {
    if entries == [] then []
    else
      var n := |entries| - 1;
      var before := Rechained(c, genesis, entries[..n]);
      before + [Relink(c, entries[n], n + 1, HeadHash(genesis, before))]
  }

  /** The repair pass. An empty ledger has no first entry to read the genesis hash from: the script throws. */
  method Repair(c: Crypto, entries: seq<Entry>) returns (fixed: Option<seq<Entry>>)
    ensures fixed == if entries == [] then None else Some(Rechained(c, entries[0].prevHash, entries))
  {
    if entries == [] {
      return None;
    }
    var zero := entries[0].prevHash;
    var prev := zero;
    var out: seq<Entry> := [];
    for i := 0 to |entries|
      invariant out == Rechained(c, zero, entries[..i])
      invariant prev == HeadHash(zero, out)
    {
      assert entries[..i + 1][..i] == entries[..i];
      var e := Relink(c, entries[i], i + 1, prev);
      out := out + [e];
      prev := e.hash;
    }
    assert entries[..|entries|] == entries;
    fixed := Some(out);
  }

  // --- the chain rule and the ledger's own check ---------------------------

  ghost predicate ValidLink(c: Crypto, genesis: string, chain: seq<Entry>, i: nat)
    requires i < |chain|
  {
    var prev := HeadHash(genesis, chain[..i]);
    && chain[i].number == i + 1 && chain[i].prevHash == prev
    && chain[i].hash == c.sha(prev + Canon(c, chain[i]))
  }

  ghost predicate ValidChain(c: Crypto, genesis: string, chain: seq<Entry>) {
    forall i :: 0 <= i < |chain| ==> ValidLink(c, genesis, chain, i)
  }

  /** The two ledgers carry the same records in the same order, whatever their links. */
  ghost predicate SameRecords(a: seq<Entry>, b: seq<Entry>) {
    && |a| == |b|
    && forall i :: 0 <= i < |a| ==>
         a[i].ts == b[i].ts && a[i].kind == b[i].kind && a[i].payload == b[i].payload && a[i].sig == b[i].sig
  }

  datatype Flaw = BadSeq | BadPrev | BadHash | BadSig
  datatype Verdict = Sound(count: nat) | Flawed(index: nat, flaw: Flaw)

  /** What is wrong with one entry, given the hash before it: its first failing check in the order of the walk. */
  ghost predicate HasFlaw(c: Crypto, entries: seq<Entry>, i: nat, flaw: Flaw)
    requires i < |entries|
  {
    var e, prev := entries[i], HeadHash(c.zeroHash, entries[..i]);
    match flaw
    case BadSeq => e.number != i + 1
    case BadPrev => e.number == i + 1 && e.prevHash != prev
    case BadHash => e.number == i + 1 && e.prevHash == prev && e.hash != c.sha(prev + Canon(c, e))
    case BadSig => ValidLink(c, c.zeroHash, entries, i) && !c.signed(Canon(c, e), e.sig)
  }

  /** The chain rule and the signatures, from the fixed zero hash. */
  ghost predicate Passes(c: Crypto, entries: seq<Entry>) {
    ValidChain(c, c.zeroHash, entries) && AllSigned(c, entries)
  }

  /** `Ledger.verify`: walks from the fixed zero hash and stops at the first flaw, where a prefix first fails. */
  method Verify(c: Crypto, entries: seq<Entry>) returns (v: Verdict)
    ensures v.Sound? <==> Passes(c, entries)
    ensures v.Sound? ==> v.count == |entries|
    ensures v.Flawed? ==>
      && v.index < |entries| && HasFlaw(c, entries, v.index, v.flaw)
      && Passes(c, entries[..v.index]) && !Passes(c, entries[..v.index + 1])
  {
    var prev := c.zeroHash;
    for i := 0 to |entries|
      invariant ValidChain(c, c.zeroHash, entries[..i]) && AllSigned(c, entries[..i])
      invariant prev == HeadHash(c.zeroHash, entries[..i])
    {
      var e := entries[i];
      PrefixLinks(c, c.zeroHash, entries, i);
      SignedNext(c, entries, i);
      if e.number != i + 1 {
        return Flawed(i, BadSeq);
      }
      if e.prevHash != prev {
        return Flawed(i, BadPrev);
      }
      if e.hash != c.sha(prev + Canon(c, e)) {
        return Flawed(i, BadHash);
      }
      if !c.signed(Canon(c, e), e.sig) {
        return Flawed(i, BadSig);
      }
      prev := e.hash;
    }
    assert entries[..|entries|] == entries;
    return Sound(|entries|);
  }

  ghost predicate AllSigned(c: Crypto, entries: seq<Entry>) {
    forall i :: 0 <= i < |entries| ==> c.signed(Canon(c, entries[i]), entries[i].sig)
  }

  lemma SignedNext(c: Crypto, entries: seq<Entry>, i: nat)
    requires i < |entries|
    ensures AllSigned(c, entries[..i + 1])
            <==> AllSigned(c, entries[..i]) && c.signed(Canon(c, entries[i]), entries[i].sig)
  {
    hide Canon;
    assert entries[..i + 1] == entries[..i] + [entries[i]];
    if AllSigned(c, entries[..i + 1]) {
      forall k | 0 <= k < i
        ensures c.signed(Canon(c, entries[k]), entries[k].sig)
      {
        assert entries[..i + 1][k] == entries[k];
      }
      assert entries[..i + 1][i] == entries[i];
    }
  }

  lemma LinkInPrefix(c: Crypto, genesis: string, chain: seq<Entry>, m: nat, i: nat)
    requires i < m <= |chain|
    ensures ValidLink(c, genesis, chain[..m], i) <==> ValidLink(c, genesis, chain, i)
  {
    hide Canon, HeadHash;
    assert chain[..m][..i] == chain[..i];
  }

  lemma PrefixLinks(c: Crypto, genesis: string, chain: seq<Entry>, n: nat)
    requires n < |chain|
    ensures ValidChain(c, genesis, chain[..n + 1])
            <==> ValidChain(c, genesis, chain[..n]) && ValidLink(c, genesis, chain, n)
  {
    hide ValidLink;
    var longer, shorter := chain[..n + 1], chain[..n];
    LinkInPrefix(c, genesis, chain, n + 1, n);
    if ValidChain(c, genesis, longer) {
      forall i | 0 <= i < n
        ensures ValidLink(c, genesis, shorter, i)
      {
        assert ValidLink(c, genesis, longer, i);
        LinkInPrefix(c, genesis, chain, n + 1, i);
        LinkInPrefix(c, genesis, chain, n, i);
      }
      assert ValidLink(c, genesis, longer, n);
    }
    if ValidChain(c, genesis, shorter) && ValidLink(c, genesis, chain, n) {
      forall i | 0 <= i < |longer|
        ensures ValidLink(c, genesis, longer, i)
      {
        if i < n {
          assert ValidLink(c, genesis, shorter, i);
          LinkInPrefix(c, genesis, chain, n, i);
        }
        LinkInPrefix(c, genesis, chain, n + 1, i);
      }
    }
  }

  // --- what the repair achieves --------------------------------------------

  lemma {:induction false} RepairIsValid(c: Crypto, genesis: string, entries: seq<Entry>)
    ensures ValidChain(c, genesis, Rechained(c, genesis, entries))
    ensures SameRecords(entries, Rechained(c, genesis, entries))
  {
    if entries != [] {
      var before := Rechained(c, genesis, entries[..|entries| - 1]);
      RepairIsValid(c, genesis, entries[..|entries| - 1]);
      Appended(c, genesis, before, entries[|entries| - 1]);
    }
  }

  lemma Appended(c: Crypto, genesis: string, before: seq<Entry>, e: Entry)
    requires ValidChain(c, genesis, before)
    ensures ValidChain(c, genesis, before + [Relink(c, e, |before| + 1, HeadHash(genesis, before))])
  {
    hide Canon, ValidChain;
    var n := |before|;
    var out := before + [Relink(c, e, n + 1, HeadHash(genesis, before))];
    assert out[..n] == before && out[..n + 1] == out;
    PrefixLinks(c, genesis, out, n);
    SameBody(c, e, n + 1, HeadHash(genesis, before));
  }

  lemma SameBody(c: Crypto, e: Entry, number: int, prev: string)
    ensures Canon(c, Relink(c, e, number, prev)) == Canon(c, e)
  {
  }

  /** A valid chain is determined by its genesis and its records, so the repair has only one possible outcome. */
  lemma {:induction false} ValidChainUnique(c: Crypto, genesis: string, a: seq<Entry>, b: seq<Entry>)
    requires ValidChain(c, genesis, a) && ValidChain(c, genesis, b) && SameRecords(a, b)
    ensures a == b
  {
    if a != [] {
      hide Canon;
      var n := |a| - 1;
      assert a[..n + 1] == a && b[..n + 1] == b;
      PrefixLinks(c, genesis, a, n);
      PrefixLinks(c, genesis, b, n);
      ValidChainUnique(c, genesis, a[..n], b[..n]);
      SameCanon(c, a[n], b[n]);
      assert a == a[..n] + [a[n]] && b == b[..n] + [b[n]];
    }
  }

  lemma SameCanon(c: Crypto, a: Entry, b: Entry)
    requires a.payload == b.payload
    ensures Canon(c, a) == Canon(c, b)
  {
  }

  /** Repair leaves a ledger alone exactly when it is already valid, and repairing twice changes nothing more. */
  lemma RepairIdentity(c: Crypto, entries: seq<Entry>)
    requires entries != []
    ensures
      var genesis := entries[0].prevHash;
      var out := Rechained(c, genesis, entries);
      && (out == entries <==> ValidChain(c, genesis, entries))
      && out[0].prevHash == genesis
      && Rechained(c, out[0].prevHash, out) == out
  {
    hide Rechained, ValidLink;
    var genesis := entries[0].prevHash;
    var out := Rechained(c, genesis, entries);
    RepairIsValid(c, genesis, entries);
    FirstLink(c, genesis, out);
    RepairIsValid(c, genesis, out);
    if ValidChain(c, genesis, entries) {
      ValidChainUnique(c, genesis, entries, out);
    }
    ValidChainUnique(c, genesis, out, Rechained(c, genesis, out));
  }

  lemma FirstLink(c: Crypto, genesis: string, chain: seq<Entry>)
    requires chain != [] && ValidChain(c, genesis, chain)
    ensures chain[0].prevHash == genesis
  {
    assert ValidLink(c, genesis, chain, 0);
  }

  /**
   * The repaired ledger passes the ledger's own verification exactly when the first entry carried the
   * zero hash and every signature was good: the script trusts whatever genesis it finds.
   */
  lemma RepairVerifies(c: Crypto, entries: seq<Entry>)
    requires entries != []
    ensures
      var out := Rechained(c, entries[0].prevHash, entries);
      Passes(c, out)
      <==> entries[0].prevHash == c.zeroHash && AllSigned(c, entries)
  {
    hide Rechained, ValidLink, Canon;
    var out := Rechained(c, entries[0].prevHash, entries);
    RepairIsValid(c, entries[0].prevHash, entries);
    FirstLink(c, entries[0].prevHash, out);
    if ValidChain(c, c.zeroHash, out) {
      FirstLink(c, c.zeroHash, out);
    }
    forall i | 0 <= i < |entries|
      ensures Canon(c, out[i]) == Canon(c, entries[i])
    {
      SameCanon(c, out[i], entries[i]);
    }
  }

  // --- tamper evidence -----------------------------------------------------

  /** No two different inputs hashed in the two chains share a hash. */
  ghost predicate NoCollision(c: Crypto, a: seq<Entry>, b: seq<Entry>) {
    forall i, j :: 0 <= i < |a| && 0 <= j < |b| && a[i].hash == b[j].hash ==>
      a[i].prevHash + Canon(c, a[i]) == b[j].prevHash + Canon(c, b[j])
  }

  /** The genesis has the width of a hash but is the hash of no entry. */
  ghost predicate FreshGenesis(genesis: string, width: nat, chain: seq<Entry>) {
    |genesis| == width && forall i :: 0 <= i < |chain| ==> chain[i].hash != genesis
  }

  /**
   * One hash commits to the whole history. Two valid chains with one genesis and one head hash have the
   * same payloads, given fixed-width hashes, no collision among what was hashed, and an injective canonical form.
   * The lengths need not be known to agree when the genesis is not itself an entry's hash.
   */
  lemma {:induction false} HeadHashCommits(c: Crypto, genesis: string, width: nat, a: seq<Entry>, b: seq<Entry>)
    requires ValidChain(c, genesis, a) && ValidChain(c, genesis, b)
    requires HeadHash(genesis, a) == HeadHash(genesis, b)
    requires forall s :: |c.sha(s)| == width
    requires forall x, y :: c.canonical(x) == c.canonical(y) ==> x == y
    requires NoCollision(c, a, b)
    requires |a| == |b| || (FreshGenesis(genesis, width, a) && FreshGenesis(genesis, width, b))
    ensures |a| == |b|
    ensures forall i :: 0 <= i < |a| ==> Body(c, a[i]) == Body(c, b[i])
    decreases |a|
  {
    if a != [] && b != [] {
      hide Canon;
      var n, m := |a| - 1, |b| - 1;
      var pa, pb := HeadHash(genesis, a[..n]), HeadHash(genesis, b[..m]);
      assert a[..n + 1] == a && b[..m + 1] == b;
      PrefixLinks(c, genesis, a, n);
      PrefixLinks(c, genesis, b, m);
      assert pa + Canon(c, a[n]) == pb + Canon(c, b[m]);
      HeadWidth(c, genesis, width, a, n);
      HeadWidth(c, genesis, width, b, m);
      SplitAtWidth(pa, Canon(c, a[n]), pb, Canon(c, b[m]));
      CanonBody(c, a[n], b[m]);
      HeadHashCommits(c, genesis, width, a[..n], b[..m]);
    }
  }

  lemma HeadWidth(c: Crypto, genesis: string, width: nat, chain: seq<Entry>, n: nat)
    requires n < |chain| && ValidChain(c, genesis, chain)
    requires forall s :: |c.sha(s)| == width
    ensures HeadHash(genesis, chain[..n]) == genesis || |HeadHash(genesis, chain[..n])| == width
    ensures n > 0 ==> |HeadHash(genesis, chain[..n])| == width
  {
    if n > 0 {
      assert ValidLink(c, genesis, chain, n - 1);
    }
  }

  lemma SplitAtWidth(a1: string, a2: string, b1: string, b2: string)
    requires a1 + a2 == b1 + b2 && |a1| == |b1|
    ensures a1 == b1 && a2 == b2
  {
    assert a1 == (a1 + a2)[..|a1|] && b1 == (b1 + b2)[..|a1|];
    assert a2 == (a1 + a2)[|a1|..] && b2 == (b1 + b2)[|a1|..];
  }

  lemma CanonBody(c: Crypto, a: Entry, b: Entry)
    requires forall x, y :: c.canonical(x) == c.canonical(y) ==> x == y
    requires Canon(c, a) == Canon(c, b)
    ensures Body(c, a) == Body(c, b)
  {
  }

  // --- what is chained -----------------------------------------------------

  /** The text that is hashed and signed for an entry: the canonical form of its payload, or of the empty object. */
  ghost predicate Hashed(c: Crypto, e: Entry, text: string) {
    match e.payload
    case Some(p) => text == c.canonical(p)
    case None => text == c.canonical(c.emptyObject)
  }

  /** Entry i is numbered i + 1, carries the hash before it, and hashes that together with its own text. */
  ghost predicate Linked(c: Crypto, genesis: string, chain: seq<Entry>, i: nat)
    requires i < |chain|
  {
    var prev := if i == 0 then genesis else chain[i - 1].hash;
    && chain[i].number == i + 1 && chain[i].prevHash == prev
    && forall text :: Hashed(c, chain[i], text) ==> chain[i].hash == c.sha(prev + text)
  }

  ghost predicate Signed(c: Crypto, e: Entry) {
    forall text :: Hashed(c, e, text) ==> c.signed(text, e.sig)
  }

  /** A valid chain, entry by entry. */
  lemma ChainMeaning(c: Crypto, genesis: string, chain: seq<Entry>)
    ensures ValidChain(c, genesis, chain) <==> forall i :: 0 <= i < |chain| ==> Linked(c, genesis, chain, i)
    ensures AllSigned(c, chain) <==> forall i :: 0 <= i < |chain| ==> Signed(c, chain[i])
  {
    hide Linked, ValidLink, Canon, Hashed;
    forall i | 0 <= i < |chain|
      ensures ValidLink(c, genesis, chain, i) <==> Linked(c, genesis, chain, i)
      ensures c.signed(Canon(c, chain[i]), chain[i].sig) <==> Signed(c, chain[i])
    {
      LinkMeaning(c, genesis, chain, i);
    }
  }

  lemma LinkMeaning(c: Crypto, genesis: string, chain: seq<Entry>, i: nat)
    requires i < |chain|
    ensures ValidLink(c, genesis, chain, i) <==> Linked(c, genesis, chain, i)
    ensures c.signed(Canon(c, chain[i]), chain[i].sig) <==> Signed(c, chain[i])
  {
    var e := chain[i];
    assert Hashed(c, e, Canon(c, e)) && forall text :: Hashed(c, e, text) <==> text == Canon(c, e);
    hide Canon, Hashed;
    assert HeadHash(genesis, chain[..i]) == if i == 0 then genesis else chain[i - 1].hash;
  }
}
