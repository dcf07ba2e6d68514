/** Signed billing receipts (receipt.go): canonical projection, signing, verification, per-organisation hash chains. */
module Receipts {
  import opened Wrappers
  import opened HashChain

  type Bytes = string
  type Key = string

  /** What the caller states about a request; the signer only copies it. */
  datatype Content = Content(traceID: string, apiKeyID: string, alias: string, provider: string, providerModel: string,
                             region: string, reqHash: string, respHash: string,
                             promptTokens: int, outputTokens: int, totalTokens: int, costUSD: real)

  /** Every field but the signature. */
  datatype Canonical = Canonical(id: string, orgID: string, content: Content, timestamp: int,
                                 prevReceiptID: string, prevHash: string, publicKeyID: string)

  datatype Signed = Signed(body: Canonical, signature: string)

  const ZERO_TIME := 0

  /** JSON, SHA-256 in hexadecimal, Ed25519 and base64, of which only what `Sound` says is used. */
  datatype Crypto = Crypto(json: Canonical -> Bytes, sha256Hex: Bytes -> string,
                           public: Key -> Key, keyID: Key -> string,
                           sign: (Key, Bytes) -> Bytes, verify: (Key, Bytes, Bytes) -> bool,
                           base64: Bytes -> string, unbase64: string -> Option<Bytes>)
  {
    function Hash(c: Canonical): string {
      sha256Hex(json(c))
    }

    ghost predicate Sound() {
      && (forall k, b :: verify(public(k), b, sign(k, b)))
      && (forall b :: unbase64(base64(b)) == Some(b))
      && (forall b :: sha256Hex(b) != "")
    }

    /** A signature is good for one text only. */
    ghost predicate Binding() {
      forall k, b, b', s | verify(k, b, s) && verify(k, b', s) :: b == b'
    }
  }

  predicate Verifies(crypto: Crypto, pub: Key, s: Signed) {
    match crypto.unbase64(s.signature)
    case None => false
    case Some(sig) => crypto.verify(pub, crypto.json(s.body), sig)
  }

  function Bodies(log: seq<Signed>, org: string): (chain: seq<Canonical>)
    ensures forall c | c in chain :: c.orgID == org
  {
    if log == [] then []
    else
      var rest, last := Bodies(log[..|log| - 1], org), log[|log| - 1].body;
      if last.orgID == org then rest + [last] else rest
  }

  /** Each receipt names the one before it, by id and by hash. */
  ghost predicate Chained(crypto: Crypto, chain: seq<Canonical>) {
    && Linked(chain, (c: Canonical) => c.prevHash, (c: Canonical) => crypto.Hash(c))
    && Linked(chain, (c: Canonical) => c.prevReceiptID, (c: Canonical) => c.id)
  }

  datatype Tail = Tail(id: string, hash: string)

  class Receipt {
    var id: string
    var orgID: string
    var content: Content
    var timestamp: int
    var prevReceiptID: string
    var prevHash: string
    var publicKeyID: string
    var signature: string

    constructor (orgID: string, content: Content)
      ensures Body() == Canonical("", orgID, content, ZERO_TIME, "", "", "") && signature == ""
    {
      this.orgID, this.content := orgID, content;
      id, timestamp, prevReceiptID, prevHash, publicKeyID, signature := "", ZERO_TIME, "", "", "", "";
    }

    function Body(): Canonical
      reads this
    {
      Canonical(id, orgID, content, timestamp, prevReceiptID, prevHash, publicKeyID)
    }

    function Snapshot(): Signed
      reads this
    {
      Signed(Body(), signature)
    }
  }

  class Signer {
    const crypto: Crypto
    const priv: Key
    const chained: bool
    var chainLast: map<string, Tail>

    /** Every receipt signed so far, as it was when signed. */
    ghost var log: seq<Signed>

    ghost predicate Valid()
      reads this
    {
      && (forall s | s in log :: Verifies(crypto, crypto.public(priv), s))
      && (chained ==> forall org :: OrgChained(crypto, log, chainLast, org))
    }

    ghost predicate BlankStarts()
      reads this
    {
      forall org :: BlankStart(log, org)
    }

    constructor (crypto: Crypto, priv: Key, chained: bool)
      ensures this.crypto == crypto && this.priv == priv && this.chained == chained
      ensures Valid() && BlankStarts() && chainLast == map[] && log == []
    {
      this.crypto, this.priv, this.chained, chainLast, log := crypto, priv, chained, map[], [];
    }

    /** Clock and fresh id are parameters. The first receipt of an organisation keeps the links its caller gave. */
    method Sign(rcpt: Receipt?, now: int, freshID: string) returns (ok: bool)
      requires Valid() && crypto.Sound()
      modifies this`chainLast, this`log, rcpt
      ensures Valid() && ok == (rcpt != null)
      ensures !ok ==> log == old(log) && chainLast == old(chainLast)
      ensures ok ==> log == old(log) + [rcpt.Snapshot()]
      ensures old(BlankStarts()) && (rcpt != null ==> old(rcpt.prevReceiptID == "" == rcpt.prevHash)) ==> BlankStarts()
      ensures ok ==> rcpt.Body() == Filled(old(rcpt.Body()), now, freshID, crypto.keyID(crypto.public(priv)),
                                           if chained then LastOf(Bodies(old(log), old(rcpt.orgID))) else None, crypto)
      ensures ok ==> rcpt.content == old(rcpt.content) && rcpt.orgID == old(rcpt.orgID)
                     && (old(rcpt.id) != "" ==> rcpt.id == old(rcpt.id))
                     && (old(rcpt.timestamp) != ZERO_TIME ==> rcpt.timestamp == old(rcpt.timestamp))
      ensures ok ==> chainLast == if !chained then old(chainLast)
                                  else old(chainLast)[rcpt.orgID := Tail(rcpt.id, crypto.Hash(rcpt.Body()))]
    {
      if rcpt == null {
        return false;
      }
      Fill(rcpt, now, freshID);
      var body := crypto.json(rcpt.Body());
      rcpt.signature := crypto.base64(crypto.sign(priv, body));
      ghost var tails := chainLast;
      if chained {
        chainLast := chainLast[rcpt.orgID := Tail(rcpt.id, crypto.sha256Hex(body))];
        Extend(crypto, log, tails, rcpt.Snapshot(), log + [rcpt.Snapshot()], chainLast);
      }
      StartsStayBlank(log, rcpt.Snapshot());
      log := log + [rcpt.Snapshot()];
      return true;
    }

    method Fill(rcpt: Receipt, now: int, freshID: string)
      requires Valid()
      modifies rcpt
      ensures rcpt.Body() == Filled(old(rcpt.Body()), now, freshID, crypto.keyID(crypto.public(priv)),
                                    if chained then LastOf(Bodies(log, old(rcpt.orgID))) else None, crypto)
    {
      if rcpt.timestamp == ZERO_TIME {
        rcpt.timestamp := now;
      }
      if rcpt.id == "" {
        rcpt.id := freshID;
      }
      rcpt.publicKeyID := crypto.keyID(crypto.public(priv));
      assert chained ==> OrgChained(crypto, log, chainLast, rcpt.orgID);
      if chained && rcpt.orgID in chainLast {
        var tail := chainLast[rcpt.orgID];
        rcpt.prevReceiptID := tail.id;
        rcpt.prevHash := tail.hash;
      }
    }
  }

  /** Nothing precedes the first receipt of an organisation. */
  ghost predicate BlankStart(log: seq<Signed>, org: string) {
    var chain := Bodies(log, org);
    chain != [] ==> chain[0].prevReceiptID == "" && chain[0].prevHash == ""
  }

  lemma StartsStayBlank(log: seq<Signed>, s: Signed)
    ensures (forall org :: BlankStart(log, org))
            && (Bodies(log, s.body.orgID) == [] ==> s.body.prevReceiptID == "" && s.body.prevHash == "")
            ==> forall org :: BlankStart(log + [s], org)
  {
    if (forall org :: BlankStart(log, org))
       && (Bodies(log, s.body.orgID) == [] ==> s.body.prevReceiptID == "" && s.body.prevHash == "") {
      forall org ensures BlankStart(log + [s], org) {
        assert (log + [s])[..|log|] == log && BlankStart(log, org);
      }
    }
  }

  /** The last entry of the organisation's chain is the tail remembered for it. */
  ghost predicate OrgChained(crypto: Crypto, log: seq<Signed>, tails: map<string, Tail>, org: string) {
    var chain := Bodies(log, org);
    && Chained(crypto, chain)
    && (org in tails <==> chain != [])
    && (org in tails ==> tails[org] == Tail(chain[|chain| - 1].id, crypto.Hash(chain[|chain| - 1])))
  }

  function LastOf(chain: seq<Canonical>): Option<Canonical> {
    if chain == [] then None else Some(chain[|chain| - 1])
  }

  /** What signing makes of a receipt whose organisation's last one is `last`. */
  function Filled(c: Canonical, now: int, freshID: string, keyID: string, last: Option<Canonical>,
                  crypto: Crypto): Canonical {
    c.(id := if c.id == "" then freshID else c.id,
       timestamp := if c.timestamp == ZERO_TIME then now else c.timestamp,
       publicKeyID := keyID,
       prevReceiptID := if last.Some? then last.value.id else c.prevReceiptID,
       prevHash := if last.Some? then crypto.Hash(last.value) else c.prevHash)
  }

  lemma Extend(crypto: Crypto, log: seq<Signed>, tails: map<string, Tail>, s: Signed, log': seq<Signed>,
               tails': map<string, Tail>)
    requires forall org :: OrgChained(crypto, log, tails, org)
    requires var last := LastOf(Bodies(log, s.body.orgID));
             last.Some? ==> s.body.prevReceiptID == last.value.id && s.body.prevHash == crypto.Hash(last.value)
    requires log' == log + [s] && tails' == tails[s.body.orgID := Tail(s.body.id, crypto.Hash(s.body))]
    ensures forall org :: OrgChained(crypto, log', tails', org)
  {
    forall org ensures OrgChained(crypto, log', tails', org) {
      assert log'[..|log|] == log;
      assert OrgChained(crypto, log, tails, org);
      if org == s.body.orgID {
        ChainedExtends(crypto, Bodies(log, org), s.body);
      }
    }
  }

  lemma ChainedExtends(crypto: Crypto, chain: seq<Canonical>, c: Canonical)
    requires Chained(crypto, chain)
    requires var last := LastOf(chain);
             last.Some? ==> c.prevReceiptID == last.value.id && c.prevHash == crypto.Hash(last.value)
    ensures Chained(crypto, chain + [c])
  {
    LinkedExtends(chain, c, (c: Canonical) => c.prevHash, (c: Canonical) => crypto.Hash(c));
    LinkedExtends(chain, c, (c: Canonical) => c.prevReceiptID, (c: Canonical) => c.id);
  }

  /** How the handler issues a receipt: made for the request, without links, and signed. */
  method Issue(signer: Signer, orgID: string, content: Content, now: int, freshID: string) returns (rcpt: Receipt)
    requires signer.Valid() && signer.BlankStarts() && signer.crypto.Sound()
    modifies signer`chainLast, signer`log
    ensures signer.Valid() && signer.BlankStarts() && fresh(rcpt)
    ensures signer.log == old(signer.log) + [rcpt.Snapshot()]
    ensures rcpt.orgID == orgID && rcpt.content == content && rcpt.id == freshID && rcpt.timestamp == now
    ensures rcpt.publicKeyID == signer.crypto.keyID(signer.crypto.public(signer.priv))
    ensures var chain := Bodies(old(signer.log), orgID);
            if signer.chained && chain != []
            then rcpt.prevReceiptID == chain[|chain| - 1].id
                 && rcpt.prevHash == signer.crypto.sha256Hex(signer.crypto.json(chain[|chain| - 1]))
            else rcpt.prevReceiptID == "" == rcpt.prevHash
  {
    rcpt := new Receipt(orgID, content);
    var ok := signer.Sign(rcpt, now, freshID);
  }

  /** An auditor who knows the tail of an organisation, and holds a chain from a blank start that ends in it, holds
      exactly what was signed, whatever receipts of other organisations came in between, if and only if no two different
      receipts that stand equally far from the ends are hashed alike. */
  lemma Audited(signer: Signer, org: string, claimed: seq<Canonical>)
    requires signer.Valid() && signer.chained && signer.BlankStarts() && signer.crypto.Sound()
    requires Chained(signer.crypto, claimed) && claimed != [] && claimed[0].prevHash == ""
    requires org in signer.chainLast && signer.crypto.Hash(claimed[|claimed| - 1]) == signer.chainLast[org].hash
    ensures claimed == Bodies(signer.log, org)
            <==> NoCollision(claimed, Bodies(signer.log, org), (c: Canonical) => signer.crypto.Hash(c))
  {
    var crypto, chain := signer.crypto, Bodies(signer.log, org);
    assert OrgChained(crypto, signer.log, signer.chainLast, org) && BlankStart(signer.log, org);
    SameEndSameChain(claimed, chain, (c: Canonical) => c.prevHash, (c: Canonical) => crypto.Hash(c));
  }

  /** Under a signature that was given out, exactly what is written like the receipt it was given for verifies. */
  lemma AuditedSignature(signer: Signer, s: Signed, body: Canonical)
    requires signer.Valid() && signer.crypto.Binding() && s in signer.log
    ensures Verifies(signer.crypto, signer.crypto.public(signer.priv), Signed(body, s.signature))
            <==> signer.crypto.json(body) == signer.crypto.json(s.body)
  {
  }
}
