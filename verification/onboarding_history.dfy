/**
 Every interleaving of onboarding operations: tokens created, frozen and revoked, nodes
 bootstrapped and revoked, and renewals split into their read and their unguarded write. A failed
 transaction is rolled back and is no step.
 */
module OnboardingHistory {
  import opened Wrappers
  import opened Onboarding

  /** A certificate written to an identity; `after` counts the certificates written when its renewal read the row. */
  datatype Issue = Issue(identity: IdentityId, fingerprint: Fingerprint, signedAt: Time, renewal: bool, after: nat)

  /** A renewal between its read and its write. */
  datatype Renewal = Renewal(identity: IdentityId, readAt: Time, after: nat)

  datatype World = World(
    db: Tables, clock: Time, validity: int, threshold: int, renewals: seq<Renewal>, issues: seq<Issue>)

  datatype Step =
    | CreateToken(id: TokenId, gateway: GatewayId, plain: string, maxUses: nat, lifetime: int)
    | SetTokenStatus(token: TokenId, status: TokenStatus)
    | Bootstrap(
        token: TokenId, gateway: GatewayId, serial: string, node: NodeId,
        identity: IdentityId, fingerprint: Fingerprint)
    | RenewRead(identity: IdentityId)
    | RenewWrite(index: nat, fingerprint: Fingerprint, signedAt: Time)
    | Revoke(node: NodeId)
    | Tick(now: Time)

  /** The signer never repeats a fingerprint. */
  ghost predicate IsFresh(issues: seq<Issue>, f: Fingerprint) {
    forall i :: 0 <= i < |issues| ==> issues[i].fingerprint != f
  }

  ghost function BootstrapResult(w: World, s: Step): Result<Tables, Error>
    requires s.Bootstrap?
  {
    BootstrapTx(w.db, Some(s.token), s.gateway, s.serial, s.node, s.identity,
                Some(Certificate(s.fingerprint, w.clock + w.validity)), w.clock)
  }

  /** A renewal may write when it was signed after its read, with a fresh fingerprint. */
  ghost predicate CanWrite(w: World, s: Step)
    requires s.RenewWrite?
  {
    && s.index < |w.renewals| && IsFresh(w.issues, s.fingerprint)
    && w.renewals[s.index].readAt <= s.signedAt <= w.clock
    && RenewTx(w.db, w.renewals[s.index].identity, Certificate(s.fingerprint, s.signedAt + w.validity)).Ok?
  }

  ghost predicate CanRead(w: World, id: IdentityId) {
    && id in w.db.identities && w.db.identities[id].status == Active
    && w.db.identities[id].expiresAt - w.clock <= w.threshold
  }

  /** One step; a step that is not enabled changes nothing. A renewal writes once: its entry is dropped. */
  ghost function Do(w: World, s: Step): World {
    match s
    case CreateToken(id, gateway, plain, maxUses, lifetime) =>
      var row := NewToken(gateway, plain, maxUses, w.clock + lifetime);
      if CreateTokenTx(w.db, id, row).Ok? then w.(db := CreateTokenTx(w.db, id, row).value) else w
    case SetTokenStatus(token, status) =>
      if status != TokenActive && SetTokenStatusTx(w.db, token, status).Ok? then
        w.(db := SetTokenStatusTx(w.db, token, status).value)
      else w
    case Bootstrap(token, gateway, serial, node, identity, fingerprint) =>
      if IsFresh(w.issues, fingerprint) && BootstrapResult(w, s).Ok? then
        w.(db := BootstrapResult(w, s).value,
           issues := w.issues + [Issue(identity, fingerprint, w.clock, false, |w.issues|)])
      else w
    case RenewRead(id) =>
      if CanRead(w, id) then w.(renewals := w.renewals + [Renewal(id, w.clock, |w.issues|)]) else w
    case RenewWrite(k, fingerprint, signedAt) =>
      if CanWrite(w, s) then
        var r := w.renewals[k];
        w.(db := RenewTx(w.db, r.identity, Certificate(fingerprint, signedAt + w.validity)).value,
           renewals := w.renewals[..k] + w.renewals[k + 1..],
           issues := w.issues + [Issue(r.identity, fingerprint, signedAt, true, r.after)])
      else w
    case Revoke(node) => if RevokeTx(w.db, node).Ok? then w.(db := RevokeTx(w.db, node).value) else w
    case Tick(now) => if w.clock <= now then w.(clock := now) else w
  }

  ghost function Run(w: World, steps: seq<Step>): World {
    if |steps| == 0 then w else Do(Run(w, steps[..|steps| - 1]), steps[|steps| - 1])
  }

  ghost predicate Init(w: World) {
    w.db == EMPTY && w.renewals == [] && w.issues == []
  }

  // ---- conservation ----

  function UsesAt(t: TokenRow, g: GatewayId): int {
    if t.gateway == g then t.usedCount else 0
  }

  ghost function Pick(ks: set<TokenId>): (k: TokenId)
    requires ks != {}
    ensures k in ks
  {
    var k :| k in ks;
    k
  }

  ghost function UsesOf(ks: set<TokenId>, tokens: map<TokenId, TokenRow>, g: GatewayId): int
    requires ks <= tokens.Keys
  {
    if ks == {} then 0
    else UsesAt(tokens[Pick(ks)], g) + UsesOf(ks - {Pick(ks)}, tokens, g)
  }

  /** The sum of the used counts of all tokens of one gateway. */
  ghost function TotalUses(tokens: map<TokenId, TokenRow>, g: GatewayId): int {
    UsesOf(tokens.Keys, tokens, g)
  }

  /** The sum does not depend on the order in which the tokens are taken. */
  lemma {:induction false} UsesWithout(ks: set<TokenId>, tokens: map<TokenId, TokenRow>, k: TokenId, g: GatewayId)
    requires ks <= tokens.Keys && k in ks
    ensures UsesOf(ks, tokens, g) == UsesAt(tokens[k], g) + UsesOf(ks - {k}, tokens, g)
    decreases |ks|
  {
    var p := Pick(ks);
    if p != k {
      UsesWithout(ks - {p}, tokens, k, g);
      UsesWithout(ks - {k}, tokens, p, g);
      assert ks - {p} - {k} == ks - {k} - {p};
    }
  }

  lemma {:induction false} UsesAgree(
    ks: set<TokenId>, a: map<TokenId, TokenRow>, b: map<TokenId, TokenRow>, g: GatewayId)
    requires ks <= a.Keys && ks <= b.Keys && forall k :: k in ks ==> a[k] == b[k]
    ensures UsesOf(ks, a, g) == UsesOf(ks, b, g)
    decreases |ks|
  {
    if ks != {} {
      UsesAgree(ks - {Pick(ks)}, a, b, g);
    }
  }

  lemma TotalUpdated(tokens: map<TokenId, TokenRow>, k: TokenId, t: TokenRow, g: GatewayId)
    ensures TotalUses(tokens[k := t], g)
         == UsesAt(t, g) + (if k in tokens then TotalUses(tokens, g) - UsesAt(tokens[k], g) else TotalUses(tokens, g))
  {
    var more := tokens[k := t];
    UsesWithout(more.Keys, more, k, g);
    UsesAgree(more.Keys - {k}, more, tokens, g);
    if k in tokens {
      UsesWithout(tokens.Keys, tokens, k, g);
      assert more.Keys - {k} == tokens.Keys - {k};
    } else {
      assert more.Keys - {k} == tokens.Keys;
    }
  }

  ghost function NodesAt(db: Tables, g: GatewayId): set<NodeId> {
    set n | n in db.nodes && db.nodes[n].gateway == g
  }

  ghost function IdentitiesAt(db: Tables, g: GatewayId): set<IdentityId> {
    set i | i in db.identities && db.identities[i].gateway == g
  }

  ghost predicate Conserved(db: Tables, g: GatewayId) {
    TotalUses(db.tokens, g) == |NodesAt(db, g)| == |IdentitiesAt(db, g)|
  }

  // ---- the invariant ----

  ghost predicate TokensInv(db: Tables) {
    forall t :: t in db.tokens ==> 0 <= db.tokens[t].usedCount <= db.tokens[t].maxUses
  }

  ghost predicate Clash(a: IdentityRow, b: IdentityRow) {
    || a.node == b.node || a.fingerprint == b.fingerprint
    || (IsLive(a.status) && IsLive(b.status) && a.serial == b.serial)
  }

  /** What the unique indexes say, kept by the updates as well as by the inserts. */
  ghost predicate Unique(db: Tables) {
    forall i, j :: i in db.identities && j in db.identities && i != j ==> !Clash(db.identities[i], db.identities[j])
  }

  /** An identity's node exists, at the same gateway, and is revoked exactly when the identity is. */
  ghost predicate Bound(db: Tables, i: IdentityId)
    requires i in db.identities
  {
    var row := db.identities[i];
    && row.node in db.nodes
    && db.nodes[row.node].gateway == row.gateway
    && (row.status == Revoked <==> db.nodes[row.node].status == NodeRevoked)
    && row.status != Suspended
  }

  ghost predicate NodesInv(db: Tables) {
    && Unique(db)
    && (forall i :: i in db.identities ==> Bound(db, i))
    && (forall n :: n in db.nodes ==> NodeTaken(db, n))
  }

  function LastIssue(issues: seq<Issue>, id: IdentityId): Option<Issue> {
    if |issues| == 0 then None
    else if issues[|issues| - 1].identity == id then Some(issues[|issues| - 1])
    else LastIssue(issues[..|issues| - 1], id)
  }

  /** The row carries the certificate that was written last. */
  ghost predicate CarriesLast(w: World, i: IdentityId)
    requires i in w.db.identities
  {
    var last := LastIssue(w.issues, i);
    && last.Some?
    && w.db.identities[i].fingerprint == last.value.fingerprint
    && w.db.identities[i].expiresAt == last.value.signedAt + w.validity
  }

  /** The certificate that a renewal read was close enough to its end. */
  ghost predicate ReadInTime(w: World, id: IdentityId, after: nat, readAt: Time) {
    && after <= |w.issues|
    && LastIssue(w.issues[..after], id).Some?
    && LastIssue(w.issues[..after], id).value.signedAt + w.validity - readAt <= w.threshold
  }

  ghost predicate FingerprintsDiffer(w: World) {
    && (forall i, j :: 0 <= i < j < |w.issues| ==> w.issues[i].fingerprint != w.issues[j].fingerprint)
    && (forall k :: 0 <= k < |w.issues| ==> w.issues[k].identity in w.db.identities)
  }

  ghost predicate RowsCarry(w: World) {
    forall i :: i in w.db.identities ==> CarriesLast(w, i)
  }

  ghost predicate RenewalsRead(w: World) {
    forall r :: r in w.renewals ==> r.identity in w.db.identities && ReadInTime(w, r.identity, r.after, r.readAt)
  }

  /** The first certificate of an identity is its bootstrap's, the others are renewals that had read in time. */
  ghost predicate IssuesRead(w: World) {
    forall k :: 0 <= k < |w.issues| ==>
      if w.issues[k].renewal then
        w.issues[k].after <= k && ReadInTime(w, w.issues[k].identity, w.issues[k].after, w.issues[k].signedAt)
      else LastIssue(w.issues[..k], w.issues[k].identity) == None
  }

  ghost predicate IssuesInv(w: World) {
    FingerprintsDiffer(w) && RowsCarry(w) && RenewalsRead(w) && IssuesRead(w)
  }

  ghost predicate Inv(w: World) {
    TokensInv(w.db) && NodesInv(w.db) && IssuesInv(w) && forall g :: Conserved(w.db, g)
  }

  // ---- preservation ----

  lemma TokensKept(w: World, s: Step)
    requires TokensInv(w.db)
    ensures TokensInv(Do(w, s).db)
  {
  }

  /** One use, one node, one identity, all at the token's gateway. */
  lemma BootstrapConserves(w: World, s: Step, g: GatewayId)
    requires Conserved(w.db, g) && s.Bootstrap? && BootstrapResult(w, s).Ok?
    ensures Conserved(BootstrapResult(w, s).value, g)
  {
    var b := BootstrapResult(w, s).value;
    var t := w.db.tokens[s.token];
    BootstrapEffect(w, s);
    TotalUpdated(w.db.tokens, s.token, t.(usedCount := t.usedCount + 1), g);
    OneMoreNode(w.db, b, s.node, s.gateway, g);
    OneMoreIdentity(w.db, b, s.identity, s.gateway, g);
  }

  lemma BootstrapEffect(w: World, s: Step)
    requires s.Bootstrap? && BootstrapResult(w, s).Ok?
    ensures var b := BootstrapResult(w, s).value;
            && s.token in w.db.tokens && w.db.tokens[s.token].gateway == s.gateway
            && b.tokens == w.db.tokens[
                 s.token := w.db.tokens[s.token].(usedCount := w.db.tokens[s.token].usedCount + 1)]
            && s.node !in w.db.nodes && b.nodes == w.db.nodes[s.node := NodeRow(s.gateway, NodeActive)]
            && s.identity !in w.db.identities && s.identity in b.identities
            && b.identities[s.identity].gateway == s.gateway
            && b.identities == w.db.identities[s.identity := b.identities[s.identity]]
  {
  }

  lemma OneMoreNode(a: Tables, b: Tables, n: NodeId, at: GatewayId, g: GatewayId)
    requires n !in a.nodes && b.nodes == a.nodes[n := NodeRow(at, NodeActive)]
    ensures |NodesAt(b, g)| == |NodesAt(a, g)| + if at == g then 1 else 0
  {
    assert NodesAt(b, g) == NodesAt(a, g) + if at == g then {n} else {};
  }

  lemma OneMoreIdentity(a: Tables, b: Tables, i: IdentityId, at: GatewayId, g: GatewayId)
    requires i !in a.identities && i in b.identities && b.identities == a.identities[i := b.identities[i]]
    requires b.identities[i].gateway == at
    ensures |IdentitiesAt(b, g)| == |IdentitiesAt(a, g)| + if at == g then 1 else 0
  {
    assert IdentitiesAt(b, g) == IdentitiesAt(a, g) + if at == g then {i} else {};
  }

  lemma ConservationKept(w: World, s: Step, g: GatewayId)
    requires Conserved(w.db, g)
    ensures Conserved(Do(w, s).db, g)
  {
    var v := Do(w, s);
    match s
    case CreateToken(id, gateway, plain, maxUses, lifetime) =>
      TotalUpdated(w.db.tokens, id, NewToken(gateway, plain, maxUses, w.clock + lifetime), g);
    case SetTokenStatus(token, status) =>
      if token in w.db.tokens {
        TotalUpdated(w.db.tokens, token, w.db.tokens[token].(status := status), g);
      }
    case Bootstrap(token, gateway, serial, node, identity, fingerprint) =>
      if v != w { BootstrapConserves(w, s, g); }
    case _ =>
      assert NodesAt(v.db, g) == NodesAt(w.db, g);
      assert IdentitiesAt(v.db, g) == IdentitiesAt(w.db, g);
      assert v.db.tokens == w.db.tokens;
  }

  /** The step on the nodes and identities, one of four transactions or nothing. */
  lemma NodeEffect(w: World, s: Step)
    ensures var a, b := w.db, Do(w, s).db;
            || (b.nodes == a.nodes && b.identities == a.identities)
            || (s.Bootstrap? && BootstrapResult(w, s) == Ok(b))
            || (s.RenewWrite? && CanWrite(w, s)
                && RenewTx(a, w.renewals[s.index].identity, Certificate(s.fingerprint, s.signedAt + w.validity))
                    == Ok(b))
            || (s.Revoke? && RevokeTx(a, s.node) == Ok(b))
  {
  }

  lemma NodesKept(w: World, s: Step)
    requires NodesInv(w.db)
    ensures NodesInv(Do(w, s).db)
  {
    var a, b := w.db, Do(w, s).db;
    NodeEffect(w, s);
    if b.nodes == a.nodes && b.identities == a.identities {
      OnlyTokensChanged(a, b);
    } else if s.Bootstrap? {
      BootstrapKeepsNodes(w, s);
    } else if s.RenewWrite? {
      RenewKeepsNodes(a, w.renewals[s.index].identity, Certificate(s.fingerprint, s.signedAt + w.validity));
    } else {
      RevokeKeepsNodes(a, s.node);
    }
  }

  lemma OnlyTokensChanged(a: Tables, b: Tables)
    requires NodesInv(a) && b.nodes == a.nodes && b.identities == a.identities
    ensures NodesInv(b)
  {
    forall i | i in b.identities ensures Bound(b, i) {
      assert Bound(a, i);
    }
    NodesStayTaken(a, b);
  }

  lemma NodesStayTaken(a: Tables, b: Tables)
    requires forall i :: i in a.identities ==> i in b.identities && b.identities[i].node == a.identities[i].node
    ensures forall n :: NodeTaken(a, n) ==> NodeTaken(b, n)
  {
    forall n | NodeTaken(a, n) ensures NodeTaken(b, n) {
      var i :| i in a.identities && a.identities[i].node == n;
      assert b.identities[i].node == n;
    }
  }

  lemma BootstrapKeepsNodes(w: World, s: Step)
    requires NodesInv(w.db) && s.Bootstrap? && BootstrapResult(w, s).Ok?
    ensures NodesInv(BootstrapResult(w, s).value)
  {
    var a := w.db;
    var b := BootstrapResult(w, s).value;
    forall i | i in b.identities ensures Bound(b, i) {
      if i != s.identity { assert Bound(a, i); }
    }
    NodesStayTaken(a, b);
    assert b.identities[s.identity].node == s.node;
  }

  lemma RenewedRowIsUnique(a: Tables, id: IdentityId, cert: Certificate)
    requires Unique(a) && id in a.identities && RenewTx(a, id, cert).Ok?
    ensures Unique(RenewTx(a, id, cert).value)
  {
    var b := RenewTx(a, id, cert).value;
    assert b.identities == a.identities[id := b.identities[id]];
    forall i | i in a.identities && i != id ensures !Clash(b.identities[id], a.identities[i]) {
      assert !Clash(a.identities[id], a.identities[i]);
      if FingerprintTaken(a, cert.fingerprint) {
        assert b.identities[id].fingerprint == a.identities[id].fingerprint;
      }
    }
  }

  lemma RenewKeepsNodes(a: Tables, id: IdentityId, cert: Certificate)
    requires NodesInv(a) && RenewTx(a, id, cert).Ok?
    ensures NodesInv(RenewTx(a, id, cert).value)
  {
    if id in a.identities {
      var b := RenewTx(a, id, cert).value;
      RenewedRowIsUnique(a, id, cert);
      RowsStayBound(a, b);
    }
  }

  lemma RowsStayBound(a: Tables, b: Tables)
    requires NodesInv(a) && Unique(b) && b.nodes == a.nodes
    requires forall i :: i in a.identities <==> i in b.identities
    requires forall i :: i in a.identities ==>
               b.identities[i].node == a.identities[i].node && b.identities[i].gateway == a.identities[i].gateway
               && b.identities[i].status == a.identities[i].status
    ensures NodesInv(b)
  {
    forall i | i in b.identities ensures Bound(b, i) {
      assert Bound(a, i);
    }
    NodesStayTaken(a, b);
  }

  lemma RevokeKeepsNodes(a: Tables, node: NodeId)
    requires NodesInv(a) && RevokeTx(a, node).Ok?
    ensures NodesInv(RevokeTx(a, node).value)
  {
    var b := RevokeTx(a, node).value;
    RevokedRowsAreUnique(a, b, node);
    forall i | i in b.identities ensures Bound(b, i) {
      assert Bound(a, i);
    }
    NodesStayTaken(a, b);
  }

  /** A revocation changes nothing but statuses, and makes no row live. */
  lemma RevokedRowsAreUnique(a: Tables, b: Tables, node: NodeId)
    requires Unique(a) && b.identities.Keys == a.identities.Keys
    requires forall i :: i in b.identities ==> b.identities[i] == RevokedRow(a.identities[i], node)
    ensures Unique(b)
  {
    forall i, j | i in b.identities && j in b.identities && i != j ensures !Clash(b.identities[i], b.identities[j]) {
      assert !Clash(a.identities[i], a.identities[j]);
    }
  }

  lemma IssueAppended(issues: seq<Issue>, e: Issue, id: IdentityId)
    ensures LastIssue(issues + [e], id) == if e.identity == id then Some(e) else LastIssue(issues, id)
    ensures forall k: nat :: k <= |issues| ==> (issues + [e])[..k] == issues[..k]
  {
    assert (issues + [e])[..|issues|] == issues;
  }

  lemma {:induction false} LastIssueIsLogged(issues: seq<Issue>, id: IdentityId)
    ensures LastIssue(issues, id).Some? ==>
              exists k :: 0 <= k < |issues| && issues[k] == LastIssue(issues, id).value && issues[k].identity == id
                          && forall j :: k < j < |issues| ==> issues[j].identity != id
    ensures LastIssue(issues, id) == None ==> forall k :: 0 <= k < |issues| ==> issues[k].identity != id
  {
    if |issues| > 0 && issues[|issues| - 1].identity != id {
      LastIssueIsLogged(issues[..|issues| - 1], id);
    }
  }

  lemma ReadStays(w: World, v: World, id: IdentityId, after: nat, readAt: Time)
    requires ReadInTime(w, id, after, readAt) && w.issues <= v.issues && v.validity == w.validity
        && v.threshold == w.threshold
    ensures ReadInTime(v, id, after, readAt)
  {
    assert v.issues[..after] == w.issues[..after];
  }

  /** A certificate is written to row `e.identity` and to no other. */
  lemma RowsCarryNew(w: World, v: World, e: Issue)
    requires RowsCarry(w) && v.issues == w.issues + [e] && v.validity == w.validity
    requires e.identity in v.db.identities
    requires v.db.identities[e.identity].fingerprint == e.fingerprint
             && v.db.identities[e.identity].expiresAt == e.signedAt + v.validity
    requires forall i :: i in v.db.identities && i != e.identity ==>
               i in w.db.identities && v.db.identities[i] == w.db.identities[i]
    ensures RowsCarry(v)
  {
    forall i | i in v.db.identities ensures CarriesLast(v, i) {
      IssueAppended(w.issues, e, i);
      if i != e.identity { assert CarriesLast(w, i); }
    }
  }

  lemma IssuesReadNew(w: World, v: World, e: Issue)
    requires IssuesRead(w) && v.issues == w.issues + [e] && v.validity == w.validity && v.threshold == w.threshold
    requires if e.renewal then e.after <= |w.issues| && ReadInTime(w, e.identity, e.after, e.signedAt)
             else LastIssue(w.issues, e.identity) == None
    ensures IssuesRead(v)
  {
    forall k | 0 <= k < |v.issues|
      ensures if v.issues[k].renewal then
                v.issues[k].after <= k && ReadInTime(v, v.issues[k].identity, v.issues[k].after, v.issues[k].signedAt)
              else LastIssue(v.issues[..k], v.issues[k].identity) == None
    {
      assert v.issues[..k] == w.issues[..k];
      if k < |w.issues| {
        if w.issues[k].renewal {
          ReadStays(w, v, w.issues[k].identity, w.issues[k].after, w.issues[k].signedAt);
        }
      } else if e.renewal {
        ReadStays(w, v, e.identity, e.after, e.signedAt);
      } else {
        assert w.issues[..k] == w.issues;
      }
    }
  }

  lemma CertificateLogged(w: World, v: World, e: Issue)
    requires IssuesInv(w)
    requires v.issues == w.issues + [e] && v.validity == w.validity && v.threshold == w.threshold
    requires IsFresh(w.issues, e.fingerprint)
    requires e.identity in v.db.identities
    requires v.db.identities[e.identity].fingerprint == e.fingerprint
             && v.db.identities[e.identity].expiresAt == e.signedAt + v.validity
    requires forall i :: i in w.db.identities ==> i in v.db.identities
    requires forall i :: i in v.db.identities && i != e.identity ==>
               i in w.db.identities && v.db.identities[i] == w.db.identities[i]
    requires forall r :: r in v.renewals ==> r in w.renewals
    requires if e.renewal then e.after <= |w.issues| && ReadInTime(w, e.identity, e.after, e.signedAt)
             else LastIssue(w.issues, e.identity) == None
    ensures IssuesInv(v)
  {
    RowsCarryNew(w, v, e);
    IssuesReadNew(w, v, e);
    forall r | r in v.renewals ensures r.identity in v.db.identities && ReadInTime(v, r.identity, r.after, r.readAt) {
      ReadStays(w, v, r.identity, r.after, r.readAt);
    }
  }

  lemma RowsKeepCertificates(w: World, v: World)
    requires IssuesInv(w)
    requires v.issues == w.issues && v.validity == w.validity && v.threshold == w.threshold
    requires forall r :: r in v.renewals ==>
               r in w.renewals || (r.identity in w.db.identities && ReadInTime(w, r.identity, r.after, r.readAt))
    requires forall i :: i in w.db.identities <==> i in v.db.identities
    requires forall i :: i in w.db.identities ==>
               v.db.identities[i].fingerprint == w.db.identities[i].fingerprint
               && v.db.identities[i].expiresAt == w.db.identities[i].expiresAt
    ensures IssuesInv(v)
  {
    forall i | i in v.db.identities ensures CarriesLast(v, i) {
      assert CarriesLast(w, i);
    }
    forall r | r in v.renewals ensures r.identity in v.db.identities && ReadInTime(v, r.identity, r.after, r.readAt) {
      ReadStays(w, v, r.identity, r.after, r.readAt);
    }
    forall k | 0 <= k < |v.issues| && v.issues[k].renewal
      ensures ReadInTime(v, v.issues[k].identity, v.issues[k].after, v.issues[k].signedAt)
    {
      ReadStays(w, v, w.issues[k].identity, w.issues[k].after, w.issues[k].signedAt);
    }
  }

  lemma ReadLogged(w: World, id: IdentityId)
    requires IssuesInv(w) && CanRead(w, id)
    ensures IssuesInv(Do(w, RenewRead(id)))
  {
    assert CarriesLast(w, id);
    assert w.issues[..|w.issues|] == w.issues;
    RowsKeepCertificates(w, Do(w, RenewRead(id)));
  }

  lemma IssuesKept(w: World, s: Step)
    requires IssuesInv(w)
    ensures IssuesInv(Do(w, s))
  {
    var v := Do(w, s);
    match s
    case Bootstrap(_, _, _, _, _, fingerprint) =>
      if IsFresh(w.issues, fingerprint) && BootstrapResult(w, s).Ok? { BootstrapLogged(w, s); }
    case RenewRead(id) =>
      if CanRead(w, id) { ReadLogged(w, id); }
    case RenewWrite(k, fingerprint, signedAt) =>
      if CanWrite(w, s) { WriteLogged(w, s); }
    case _ =>
      RowsKeepCertificates(w, v);
  }

  lemma BootstrapLogged(w: World, s: Step)
    requires IssuesInv(w) && s.Bootstrap? && IsFresh(w.issues, s.fingerprint) && BootstrapResult(w, s).Ok?
    ensures IssuesInv(Do(w, s))
  {
    LastIssueIsLogged(w.issues, s.identity);
    CertificateLogged(w, Do(w, s), Issue(s.identity, s.fingerprint, w.clock, false, |w.issues|));
  }

  lemma WriteLogged(w: World, s: Step)
    requires IssuesInv(w) && s.RenewWrite? && CanWrite(w, s)
    ensures IssuesInv(Do(w, s))
  {
    var r := w.renewals[s.index];
    assert r in w.renewals;
    CertificateLogged(w, Do(w, s), Issue(r.identity, s.fingerprint, s.signedAt, true, r.after));
  }

  lemma InvKept(w: World, s: Step)
    requires Inv(w)
    ensures Inv(Do(w, s))
  {
    TokensKept(w, s);
    NodesKept(w, s);
    IssuesKept(w, s);
    forall g ensures Conserved(Do(w, s).db, g) {
      ConservationKept(w, s, g);
    }
  }

  lemma {:induction false} InvAlways(w: World, steps: seq<Step>)
    requires Init(w)
    ensures Inv(Run(w, steps))
  {
    if |steps| > 0 {
      InvAlways(w, steps[..|steps| - 1]);
      InvKept(Run(w, steps[..|steps| - 1]), steps[|steps| - 1]);
    } else {
      forall g ensures Conserved(w.db, g) {
        assert NodesAt(w.db, g) == {} && IdentitiesAt(w.db, g) == {};
      }
    }
  }

  lemma {:induction false} InvContinues(w: World, steps: seq<Step>)
    requires Inv(w)
    ensures Inv(Run(w, steps))
  {
    if |steps| > 0 {
      InvContinues(w, steps[..|steps| - 1]);
      InvKept(Run(w, steps[..|steps| - 1]), steps[|steps| - 1]);
    }
  }

  // ---- the theorems ----

  /**
   In every state the uses of a gateway's tokens are as many as its nodes and as its identities,
   and no token is used more often than it allows.
   */
  lemma UsesAreNodesAreIdentities(w: World, steps: seq<Step>, g: GatewayId)
    requires Init(w)
    ensures var db := Run(w, steps).db;
            && TotalUses(db.tokens, g) == |NodesAt(db, g)| == |IdentitiesAt(db, g)|
            && forall t :: t in db.tokens ==> 0 <= db.tokens[t].usedCount <= db.tokens[t].maxUses
  {
    InvAlways(w, steps);
    assert Conserved(Run(w, steps).db, g);
  }

  /** A token that was frozen or revoked stays so in every continuation, and is never used again. */
  lemma {:induction false} InactiveTokenIsNeverUsed(w: World, steps: seq<Step>, t: TokenId)
    requires t in w.db.tokens && w.db.tokens[t].status != TokenActive
    ensures var v := Run(w, steps);
            && t in v.db.tokens && v.db.tokens[t].status != TokenActive
            && v.db.tokens[t].usedCount == w.db.tokens[t].usedCount
  {
    if |steps| > 0 {
      InactiveTokenIsNeverUsed(w, steps[..|steps| - 1], t);
    }
  }

  /** A token whose time is over is never used again. */
  lemma {:induction false} ExpiredTokenIsNeverUsed(w: World, steps: seq<Step>, t: TokenId)
    requires t in w.db.tokens && w.db.tokens[t].expiresAt < w.clock
    ensures var v := Run(w, steps);
            && t in v.db.tokens && v.db.tokens[t].expiresAt == w.db.tokens[t].expiresAt && w.clock <= v.clock
            && v.db.tokens[t].usedCount == w.db.tokens[t].usedCount
  {
    if |steps| > 0 {
      ExpiredTokenIsNeverUsed(w, steps[..|steps| - 1], t);
    }
  }

  ghost predicate IdentitiesDiffer(db: Tables) {
    forall i, j :: i in db.identities && j in db.identities && i != j ==>
      && db.identities[i].node != db.identities[j].node
      && (IsLive(db.identities[i].status) && IsLive(db.identities[j].status) ==>
            db.identities[i].serial != db.identities[j].serial)
  }

  /** The identity's node exists at the same gateway, and the two are revoked together. */
  predicate FitsItsNode(db: Tables, row: IdentityRow) {
    && row.node in db.nodes
    && db.nodes[row.node].gateway == row.gateway
    && (row.status == Revoked <==> db.nodes[row.node].status == NodeRevoked)
  }

  /**
   In every state a serial, even the empty one, has at most one live identity, and every node has
   exactly one identity, bound to the node's gateway and revoked exactly when the node is.
   */
  lemma OneIdentityPerNode(w: World, steps: seq<Step>)
    requires Init(w)
    ensures var db := Run(w, steps).db;
            && IdentitiesDiffer(db)
            && (forall n :: n in db.nodes ==> NodeTaken(db, n))
            && (forall i :: i in db.identities ==> FitsItsNode(db, db.identities[i]))
  {
    InvAlways(w, steps);
    var db := Run(w, steps).db;
    forall i, j | i in db.identities && j in db.identities && i != j
      ensures !Clash(db.identities[i], db.identities[j])
    {
    }
    forall i | i in db.identities ensures FitsItsNode(db, db.identities[i]) {
      assert Bound(db, i);
    }
  }

  /** An identity never leaves Revoked, whatever renewals were under way. */
  lemma {:induction false} RevokedForever(w: World, steps: seq<Step>, i: IdentityId)
    requires i in w.db.identities && w.db.identities[i].status == Revoked
    ensures i in Run(w, steps).db.identities && Run(w, steps).db.identities[i].status == Revoked
  {
    if |steps| > 0 {
      RevokedForever(w, steps[..|steps| - 1], i);
      RevokedStays(Run(w, steps[..|steps| - 1]), steps[|steps| - 1], i);
    }
  }

  lemma RevokedStays(w: World, s: Step, i: IdentityId)
    requires i in w.db.identities && w.db.identities[i].status == Revoked
    ensures i in Do(w, s).db.identities && Do(w, s).db.identities[i].status == Revoked
  {
    NodeEffect(w, s);
  }

  /** A row a lookup may answer from. */
  ghost predicate IsServedBy(db: Tables, f: Fingerprint, i: IdentityId) {
    i in db.identities && db.identities[i].fingerprint == f && db.identities[i].status == Active
  }

  ghost predicate IsIssued(issues: seq<Issue>, f: Fingerprint) {
    exists k :: 0 <= k < |issues| && issues[k].fingerprint == f
  }

  /** The fingerprint was once issued, and no Active row carries it. */
  ghost predicate Dead(w: World, f: Fingerprint) {
    IsIssued(w.issues, f) && forall i :: !IsServedBy(w.db, f, i)
  }

  lemma DeadStays(w: World, s: Step, f: Fingerprint)
    requires Dead(w, f)
    ensures Dead(Do(w, s), f)
  {
    var v := Do(w, s);
    NodeEffect(w, s);
    var k :| 0 <= k < |w.issues| && w.issues[k].fingerprint == f;
    assert v.issues[k] == w.issues[k];
    forall i ensures !IsServedBy(v.db, f, i) {
      assert !IsServedBy(w.db, f, i);
    }
  }

  /**
   Every certificate ever written to a revoked identity is dead, also one that a renewal wrote
   after racing past the revocation; and once dead a fingerprint stays dead.
   */
  lemma RevokedCertificatesAreDead(w: World, i: IdentityId, f: Fingerprint)
    requires RowsCarry(w) && FingerprintsDiffer(w) && i in w.db.identities && w.db.identities[i].status == Revoked
    requires exists k :: 0 <= k < |w.issues| && w.issues[k].identity == i && w.issues[k].fingerprint == f
    ensures Dead(w, f)
  {
    var k :| 0 <= k < |w.issues| && w.issues[k].identity == i && w.issues[k].fingerprint == f;
    forall j ensures !IsServedBy(w.db, f, j) {
      if j in w.db.identities {
        assert CarriesLast(w, j);
        LastIssueIsLogged(w.issues, j);
      }
    }
  }

  /** A renewal kills the certificate it replaces, in the same step. */
  lemma ReplacedCertificateIsDead(w: World, s: Step)
    requires RowsCarry(w) && Unique(w.db) && s.RenewWrite? && CanWrite(w, s)
        && w.renewals[s.index].identity in w.db.identities
    ensures Dead(Do(w, s), w.db.identities[w.renewals[s.index].identity].fingerprint)
  {
    var i := w.renewals[s.index].identity;
    var f := w.db.identities[i].fingerprint;
    var v := Do(w, s);
    assert CarriesLast(w, i);
    LastIssueIsLogged(w.issues, i);
    var k :| 0 <= k < |w.issues| && w.issues[k].fingerprint == f;
    assert v.issues[k] == w.issues[k];
    forall j ensures !IsServedBy(v.db, f, j) {
      if j in w.db.identities && j != i {
        assert !Clash(w.db.identities[i], w.db.identities[j]);
      }
    }
  }

  /**
   The same over a whole run: whatever was in flight at the revocation, no later state serves the identity's
   certificates.
   */
  lemma RevocationBeatsRenewal(w: World, before: seq<Step>, after: seq<Step>, i: IdentityId, f: Fingerprint)
    requires Init(w)
    requires i in Run(w, before).db.identities && Run(w, before).db.identities[i].status == Revoked
    requires var v := Run(Run(w, before), after);
             exists k :: 0 <= k < |v.issues| && v.issues[k].identity == i && v.issues[k].fingerprint == f
    ensures Dead(Run(Run(w, before), after), f)
  {
    InvAlways(w, before);
    InvContinues(Run(w, before), after);
    RevokedForever(Run(w, before), after, i);
    RevokedCertificatesAreDead(Run(Run(w, before), after), i, f);
  }

  // ---- renewal spacing ----

  function CountIssues(issues: seq<Issue>, id: IdentityId): nat {
    if |issues| == 0 then 0
    else CountIssues(issues[..|issues| - 1], id) + (if issues[|issues| - 1].identity == id then 1 else 0)
  }

  /** Every renewal of the identity read the row only after the one before it had written. */
  ghost predicate NonOverlapping(issues: seq<Issue>, id: IdentityId) {
    forall i, j :: 0 <= i < j < |issues| && issues[i].identity == id && issues[j].identity == id ==> issues[j].after > i
  }

  lemma {:induction false} CountStretch(issues: seq<Issue>, id: IdentityId, i: nat, j: nat)
    requires i <= j <= |issues|
    requires forall k :: i <= k < j ==> issues[k].identity != id
    ensures CountIssues(issues[..j], id) == CountIssues(issues[..i], id)
    decreases j
  {
    if i < j {
      CountStretch(issues, id, i, j - 1);
      assert issues[..j][..j - 1] == issues[..j - 1];
    }
  }

  lemma CountNext(issues: seq<Issue>, id: IdentityId, i: nat)
    requires i < |issues| && issues[i].identity == id
    ensures CountIssues(issues[..i + 1], id) == CountIssues(issues[..i], id) + 1
  {
    assert issues[..i + 1][..i] == issues[..i];
  }

  /** The identity's last certificate in a stretch that starts with one. */
  lemma {:induction false} Latest(issues: seq<Issue>, id: IdentityId, i: nat, j: nat) returns (k: nat)
    requires i < j <= |issues| && issues[i].identity == id
    ensures i <= k < j && issues[k].identity == id && forall m :: k < m < j ==> issues[m].identity != id
  {
    k := j - 1;
    if issues[k].identity != id {
      k := Latest(issues, id, i, k);
    }
  }

  lemma {:induction false} LastIssueIs(issues: seq<Issue>, id: IdentityId, k: nat, n: nat)
    requires k < n <= |issues| && issues[k].identity == id
    requires forall m :: k < m < n ==> issues[m].identity != id
    ensures LastIssue(issues[..n], id) == Some(issues[k])
  {
    if k + 1 < n {
      LastIssueIs(issues, id, k, n - 1);
      assert issues[..n][..n - 1] == issues[..n - 1];
    }
  }

  /** How long before certificate `j` the one before it, `k`, must have been signed. */
  lemma SpacedFromPrevious(w: World, id: IdentityId, k: nat, j: nat)
    requires IssuesRead(w) && NonOverlapping(w.issues, id)
    requires k < j < |w.issues| && w.issues[k].identity == id && w.issues[j].identity == id
    requires forall m :: k < m < j ==> w.issues[m].identity != id
    ensures w.issues[j].signedAt >= w.issues[k].signedAt + w.validity - w.threshold
  {
    var e := w.issues[j];
    LastIssueIs(w.issues, id, k, j);
    assert e.renewal && k < e.after <= j;
    LastIssueIs(w.issues, id, k, e.after);
    assert ReadInTime(w, id, e.after, e.signedAt);
  }

  ghost predicate Consecutive(issues: seq<Issue>, id: IdentityId, k: int, j: int) {
    && 0 <= k < j < |issues| && issues[k].identity == id && issues[j].identity == id
    && forall m :: k < m < j ==> issues[m].identity != id
  }

  /** Each certificate of the identity was signed at least `d` after the one before it. */
  ghost predicate StepsOfAtLeast(issues: seq<Issue>, id: IdentityId, d: int) {
    forall k, j :: Consecutive(issues, id, k, j) ==> issues[j].signedAt >= issues[k].signedAt + d
  }

  /**
   When an identity's renewals do not overlap, the n-th certificate after a given one is signed at
   least n times the validity less the threshold later.
   */
  lemma {:induction false} StepsAddUp(issues: seq<Issue>, id: IdentityId, d: int, i: nat, j: nat)
    requires StepsOfAtLeast(issues, id, d)
    requires i <= j < |issues| && issues[i].identity == id && issues[j].identity == id
    ensures issues[j].signedAt - issues[i].signedAt >= Times(Renewed(issues, id, i, j), d)
    ensures Renewed(issues, id, i, j) >= if i < j then 1 else 0
    decreases j
  {
    if i < j {
      var k := Latest(issues, id, i, j);
      StepsAddUp(issues, id, d, i, k);
      assert Consecutive(issues, id, k, j);
      CountNext(issues, id, k);
      CountStretch(issues, id, k + 1, j);
      assert Renewed(issues, id, i, j) == Renewed(issues, id, i, k) + 1;
    }
  }

  /** How many of the identity's certificates were written from number `i` on and before number `j`. */
  function Renewed(issues: seq<Issue>, id: IdentityId, i: nat, j: nat): int
    requires i <= j <= |issues|
  {
    CountIssues(issues[..j], id) - CountIssues(issues[..i], id)
  }

  /** `n` times `d`, as a sum. */
  function Times(n: int, d: int): int {
    if n <= 0 then 0 else Times(n - 1, d) + d
  }

  lemma {:induction false} TimesIsProduct(n: nat, d: int)
    ensures Times(n, d) == n * d
  {
    if n > 0 {
      TimesIsProduct(n - 1, d);
    }
  }

  lemma {:induction false} TimesIsPositive(n: int, d: int)
    requires n >= 1 && d > 0
    ensures Times(n, d) > 0
  {
    if n > 1 {
      TimesIsPositive(n - 1, d);
    }
  }

  /** In every run: with a validity above the threshold, non-overlapping renewals strictly move the expiry forward. */
  lemma RenewalSpacing(w: World, steps: seq<Step>, id: IdentityId, i: nat, j: nat)
    requires Init(w)
    requires var v := Run(w, steps);
             && NonOverlapping(v.issues, id)
             && i < j < |v.issues| && v.issues[i].identity == id && v.issues[j].identity == id
    ensures var v := Run(w, steps);
            && Renewed(v.issues, id, i, j) >= 1
            && v.issues[j].signedAt - v.issues[i].signedAt
                 >= Times(Renewed(v.issues, id, i, j), w.validity - w.threshold)
            && (w.validity > w.threshold ==> v.issues[j].signedAt + w.validity > v.issues[i].signedAt + w.validity)
  {
    IssuesReadAlways(w, steps);
    SettingsStay(w, steps);
    var v := Run(w, steps);
    var d := w.validity - w.threshold;
    SpacedThroughout(v, id);
    StepsAddUp(v.issues, id, d, i, j);
    if d > 0 {
      TimesIsPositive(Renewed(v.issues, id, i, j), d);
    }
  }

  lemma SpacedThroughout(w: World, id: IdentityId)
    requires IssuesRead(w) && NonOverlapping(w.issues, id)
    ensures StepsOfAtLeast(w.issues, id, w.validity - w.threshold)
  {
    forall k, m | Consecutive(w.issues, id, k, m)
      ensures w.issues[m].signedAt >= w.issues[k].signedAt + (w.validity - w.threshold)
    {
      SpacedFromPrevious(w, id, k, m);
    }
  }

  lemma IssuesReadAlways(w: World, steps: seq<Step>)
    requires Init(w)
    ensures IssuesRead(Run(w, steps))
  {
    InvAlways(w, steps);
  }

  lemma {:induction false} SettingsStay(w: World, steps: seq<Step>)
    ensures Run(w, steps).validity == w.validity && Run(w, steps).threshold == w.threshold
  {
    if |steps| > 0 {
      SettingsStay(w, steps[..|steps| - 1]);
    }
  }
}
