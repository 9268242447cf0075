/**
 Node onboarding: bootstrap tokens, nodes and their identities, with the operations that change
 them as functions on the tables and as the methods of one database object that are proved
 against those functions.
 */
module Onboarding {
  import opened Wrappers

  type TokenId = string
  type GatewayId = string
  type NodeId = string
  type IdentityId = string
  type Fingerprint = string
  type Time = int

  const DEFAULT_MAX_USES := 10
  const DEFAULT_LIFETIME := 24 * 3600

  /** A hash, as an injective function of what is hashed. */
  datatype Digest = Sha256(of: string)

  datatype TokenStatus = TokenActive | TokenFrozen | TokenRevoked

  datatype TokenRow = TokenRow(
    gateway: GatewayId, hash: Digest, maxUses: int, usedCount: int, status: TokenStatus, expiresAt: Time)

  datatype NodeStatus = NodeActive | NodeRevoked

  datatype NodeRow = NodeRow(gateway: GatewayId, status: NodeStatus)

  datatype IdentityStatus = Active | Suspended | Revoked

  datatype IdentityRow = IdentityRow(
    node: NodeId, gateway: GatewayId, serial: string, fingerprint: Fingerprint, status: IdentityStatus, expiresAt: Time)

  datatype Tables = Tables(
    tokens: map<TokenId, TokenRow>, nodes: map<NodeId, NodeRow>, identities: map<IdentityId, IdentityRow>)

  const EMPTY := Tables(map[], map[], map[])

  datatype Error =
    | TokenNotFound | FrozenToken | ExpiredToken | ExhaustedToken | GatewayMismatch
    | IdentityConflict | CsrInvalid | RevokedIdentity | RenewNotAllowed | Internal

  /** What the signer returns for a good request. */
  datatype Certificate = Certificate(fingerprint: Fingerprint, expiresAt: Time)

  // ---- constraints of the schema ----

  predicate IsLive(s: IdentityStatus) {
    s == Active || s == Suspended
  }

  predicate SerialTaken(db: Tables, serial: string) {
    exists i :: i in db.identities && db.identities[i].serial == serial && IsLive(db.identities[i].status)
  }

  predicate FingerprintTaken(db: Tables, f: Fingerprint) {
    exists i :: i in db.identities && db.identities[i].fingerprint == f
  }

  predicate NodeTaken(db: Tables, n: NodeId) {
    exists i :: i in db.identities && db.identities[i].node == n
  }

  /** The primary key, and the unique indexes on node, fingerprint and live serial; the empty serial is no exception. */
  predicate CanInsertIdentity(db: Tables, id: IdentityId, row: IdentityRow) {
    && id !in db.identities
    && !NodeTaken(db, row.node) && !FingerprintTaken(db, row.fingerprint) && !SerialTaken(db, row.serial)
  }

  predicate HashTaken(db: Tables, hash: Digest) {
    exists t :: t in db.tokens && db.tokens[t].hash == hash
  }

  // ---- tokens ----

  function NewToken(gateway: GatewayId, plain: string, maxUses: int, expiresAt: Time): TokenRow {
    TokenRow(gateway, Sha256(plain), maxUses, 0, TokenActive, expiresAt)
  }

  function CreateTokenTx(db: Tables, id: TokenId, row: TokenRow): Result<Tables, Error> {
    if id in db.tokens || HashTaken(db, row.hash) then Err(Internal) else Ok(db.(tokens := db.tokens[id := row]))
  }

  function SetTokenStatusTx(db: Tables, id: TokenId, status: TokenStatus): Result<Tables, Error> {
    if id !in db.tokens then Err(TokenNotFound)
    else Ok(db.(tokens := db.tokens[id := db.tokens[id].(status := status)]))
  }

  /** The checks on a found token, in the order the code makes them. */
  function TokenError(t: TokenRow, gateway: GatewayId, now: Time): Option<Error> {
    if t.status == TokenRevoked then Some(TokenNotFound)
    else if t.status == TokenFrozen then Some(FrozenToken)
    else if now > t.expiresAt then Some(ExpiredToken)
    else if t.usedCount >= t.maxUses then Some(ExhaustedToken)
    else if t.gateway != gateway then Some(GatewayMismatch)
    else None
  }

  /** `token` is the row the token's hash selects, if any. */
  function ConsumeTx(db: Tables, token: Option<TokenId>, gateway: GatewayId, now: Time): Result<Tables, Error> {
    if token == None || token.value !in db.tokens then Err(TokenNotFound)
    else
      var t := db.tokens[token.value];
      if TokenError(t, gateway, now).Some? then Err(TokenError(t, gateway, now).value)
      else Ok(db.(tokens := db.tokens[token.value := t.(usedCount := t.usedCount + 1)]))
  }

  /** A token with which a node can still join, spelled out. */
  predicate IsUsable(t: TokenRow, gateway: GatewayId, now: Time) {
    t.status == TokenActive && now <= t.expiresAt && t.usedCount < t.maxUses && t.gateway == gateway
  }

  ghost predicate Selects(db: Tables, hash: Digest, token: Option<TokenId>) {
    match token
    case None => !HashTaken(db, hash)
    case Some(t) => t in db.tokens && db.tokens[t].hash == hash
  }

  // ---- bootstrap, renewal, revocation ----

  function BootstrapTx(
    db: Tables, token: Option<TokenId>, gateway: GatewayId, serial: string,
    node: NodeId, identity: IdentityId, signed: Option<Certificate>, now: Time): Result<Tables, Error>
  {
    match ConsumeTx(db, token, gateway, now)
    case Err(e) => Err(e)
    case Ok(d) =>
      if serial != "" && SerialTaken(d, serial) then Err(IdentityConflict)
      else if node in d.nodes then Err(Internal)
      else if signed == None then Err(CsrInvalid)
      else
        var row := IdentityRow(node, gateway, serial, signed.value.fingerprint, Active, signed.value.expiresAt);
        if !CanInsertIdentity(d, identity, row) then Err(IdentityConflict)
        else Ok(d.(nodes := d.nodes[node := NodeRow(gateway, NodeActive)], identities := d.identities[identity := row]))
  }

  /** With everything else in order it is the serial alone that decides, and the empty serial is no exception. */
  lemma BootstrapIffSerialFree(
    db: Tables, t: TokenId, gateway: GatewayId, serial: string,
    node: NodeId, identity: IdentityId, cert: Certificate, now: Time)
    requires t in db.tokens && TokenError(db.tokens[t], gateway, now) == None
    requires node !in db.nodes && !NodeTaken(db, node) && identity !in db.identities
    requires !FingerprintTaken(db, cert.fingerprint)
    ensures var r := BootstrapTx(db, Some(t), gateway, serial, node, identity, Some(cert), now);
            if SerialTaken(db, serial) then r == Err(IdentityConflict) else r.Ok?
  {
    var d := ConsumeTx(db, Some(t), gateway, now).value;
    assert d.identities == db.identities;
    assert SerialTaken(d, serial) == SerialTaken(db, serial);
    assert NodeTaken(d, node) == NodeTaken(db, node);
    assert FingerprintTaken(d, cert.fingerprint) == FingerprintTaken(db, cert.fingerprint);
  }

  /** So once a node without a serial has bootstrapped, the next one is refused for as long as the first is live. */
  lemma SecondNodeWithoutSerial(
    db: Tables, first: Option<TokenId>, g: GatewayId, n: NodeId, i: IdentityId, c: Certificate, earlier: Time,
    t: TokenId, gateway: GatewayId, node: NodeId, identity: IdentityId, cert: Certificate, now: Time)
    requires BootstrapTx(db, first, g, "", n, i, Some(c), earlier).Ok?
    requires var a := BootstrapTx(db, first, g, "", n, i, Some(c), earlier).value;
             && t in a.tokens && TokenError(a.tokens[t], gateway, now) == None
             && node !in a.nodes && !NodeTaken(a, node) && identity !in a.identities
             && !FingerprintTaken(a, cert.fingerprint)
    ensures var a := BootstrapTx(db, first, g, "", n, i, Some(c), earlier).value;
            BootstrapTx(a, Some(t), gateway, "", node, identity, Some(cert), now) == Err(IdentityConflict)
  {
    var a := BootstrapTx(db, first, g, "", n, i, Some(c), earlier).value;
    assert i in a.identities && a.identities[i].serial == "" && IsLive(a.identities[i].status);
    BootstrapIffSerialFree(a, t, gateway, "", node, identity, cert, now);
  }

  /**
   The renewal's write: by key alone, whatever the status is by now; only the fingerprint's uniqueness can refuse
   it.
   */
  function RenewTx(db: Tables, id: IdentityId, cert: Certificate): Result<Tables, Error> {
    if id !in db.identities then Ok(db)
    else
      var row := db.identities[id];
      if FingerprintTaken(db, cert.fingerprint) && row.fingerprint != cert.fingerprint then Err(Internal)
      else
        Ok(db.(identities := db.identities[id := row.(fingerprint := cert.fingerprint, expiresAt := cert.expiresAt)]))
  }

  function RevokeTx(db: Tables, node: NodeId): Result<Tables, Error> {
    if !(exists i :: i in db.identities && db.identities[i].node == node && IsLive(db.identities[i].status)) then
      Err(RevokedIdentity)
    else
      Ok(db.(identities := map i | i in db.identities :: RevokedRow(db.identities[i], node),
             nodes := if node in db.nodes then db.nodes[node := db.nodes[node].(status := NodeRevoked)] else db.nodes))
  }

  function RevokedRow(row: IdentityRow, node: NodeId): IdentityRow {
    if row.node == node && IsLive(row.status) then row.(status := Revoked) else row
  }

  class OnboardingDatabase {
    var tokens: map<TokenId, TokenRow>
    var nodes: map<NodeId, NodeRow>
    var identities: map<IdentityId, IdentityRow>

    function Snapshot(): Tables
      reads this
    {
      Tables(tokens, nodes, identities)
    }

    constructor ()
      ensures Snapshot() == EMPTY
    {
      tokens, nodes, identities := map[], map[], map[];
    }

    method Rollback(saved: Tables)
      modifies this
      ensures Snapshot() == saved
    {
      tokens, nodes, identities := saved.tokens, saved.nodes, saved.identities;
    }

    /** The service fills in a positive number of uses and a positive lifetime. */
    method CreateToken(
      gateway: GatewayId, id: TokenId, plain: string, maxUses: int, expiresIn: int, now: Time, fault: bool)
      returns (r: Result<TokenRow, Error>)
      modifies this
      ensures r.Ok? <==> gateway != "" && !fault && id !in old(tokens) && !HashTaken(old(Snapshot()), Sha256(plain))
      ensures r.Ok? ==> r.value.maxUses > 0 && r.value.usedCount == 0 && r.value.expiresAt > now
                        && CreateTokenTx(old(Snapshot()), id, r.value) == Ok(Snapshot())
      ensures r.Ok? ==>
                && r.value.gateway == gateway && r.value.hash == Sha256(plain) && r.value.status == TokenActive
                && r.value.maxUses == (if maxUses <= 0 then 10 else maxUses)
                && r.value.expiresAt == now + (if expiresIn <= 0 then 24 * 3600 else expiresIn)
                && tokens == old(tokens)[id := r.value] && nodes == old(nodes) && identities == old(identities)
      ensures r.Err? ==> Snapshot() == old(Snapshot())
    {
      if gateway == "" {
        return Err(Internal);
      }
      var uses := if maxUses <= 0 then DEFAULT_MAX_USES else maxUses;
      var lifetime := if expiresIn <= 0 then DEFAULT_LIFETIME else expiresIn;
      var row := NewToken(gateway, plain, uses, now + lifetime);
      if fault || id in tokens || HashTaken(Snapshot(), row.hash) {
        return Err(Internal);
      }
      tokens := tokens[id := row];
      return Ok(row);
    }

    method SetTokenStatus(id: TokenId, status: TokenStatus, fault: bool) returns (r: Result<TokenRow, Error>)
      modifies this
      ensures r.Ok? <==> !fault && id in old(tokens)
      ensures r.Ok? ==> SetTokenStatusTx(old(Snapshot()), id, status) == Ok(Snapshot()) && r.value == tokens[id]
      ensures r.Ok? ==> tokens == old(tokens)[id := old(tokens)[id].(status := status)]
                        && nodes == old(nodes) && identities == old(identities)
      ensures r.Err? ==> r.error == if fault then Internal else TokenNotFound
      ensures r.Err? ==> Snapshot() == old(Snapshot())
    {
      if fault {
        return Err(Internal);
      }
      if id !in tokens {
        return Err(TokenNotFound);
      }
      tokens := tokens[id := tokens[id].(status := status)];
      return Ok(tokens[id]);
    }

    /** Reads the token's row by its hash, checks it and counts one use; `token` names the row it found. */
    method ValidateAndConsume(plain: string, gateway: GatewayId, now: Time, faultRead: bool, faultWrite: bool)
      returns (r: Result<(), Error>, ghost token: Option<TokenId>)
      modifies this`tokens
      ensures Selects(old(Snapshot()), Sha256(plain), token)
      ensures !faultRead && !faultWrite ==>
                match ConsumeTx(old(Snapshot()), token, gateway, now)
                case Ok(d) => r == Ok(()) && Snapshot() == d
                case Err(e) => r == Err(e)
      ensures r.Ok? ==> !faultRead && !faultWrite
      ensures r.Ok? ==>
                token.Some? && token.value in old(tokens)
                && tokens == old(tokens)[
                     token.value := old(tokens)[token.value].(usedCount := old(tokens)[token.value].usedCount + 1)]
      ensures r.Err? ==> Snapshot() == old(Snapshot())
      ensures token == None ==> forall t :: t in old(tokens) ==> old(tokens)[t].hash != Sha256(plain)
      ensures token.Some? ==> token.value in old(tokens) && old(tokens)[token.value].hash == Sha256(plain)
      ensures !faultRead && !faultWrite && token == None ==> r == Err(TokenNotFound)
      ensures !faultRead && !faultWrite && token.Some? ==>
                var t := old(tokens)[token.value];
                && (r.Ok? <==> t.status == TokenActive && now <= t.expiresAt && t.usedCount < t.maxUses
                               && t.gateway == gateway)
                && (r == Err(TokenNotFound) <==> t.status == TokenRevoked)
                && (r == Err(FrozenToken) <==> t.status == TokenFrozen)
                && (r == Err(ExpiredToken) <==> t.status == TokenActive && t.expiresAt < now)
                && (r == Err(ExhaustedToken) <==>
                      t.status == TokenActive && now <= t.expiresAt && t.maxUses <= t.usedCount)
                && (r == Err(GatewayMismatch) <==>
                      t.status == TokenActive && now <= t.expiresAt && t.usedCount < t.maxUses && t.gateway != gateway)
    {
      token := None;
      var hash := Sha256(plain);
      if !HashTaken(Snapshot(), hash) {
        return Err(if faultRead then Internal else TokenNotFound), None;
      }
      var id :| id in tokens && tokens[id].hash == hash;
      token := Some(id);
      if faultRead {
        return Err(Internal), token;
      }
      var rec := tokens[id];
      var refused := TokenError(rec, gateway, now);
      if refused.Some? {
        return Err(refused.value), token;
      }
      if faultWrite {
        return Err(Internal), token;
      }
      tokens := tokens[id := rec.(usedCount := rec.usedCount + 1)];
      return Ok(()), token;
    }

    /**
     One transaction of up to five statements and the commit (number 5). `signed` is the signer's
     answer to the request, None when it refuses it; `node` and `identity` are the keys the
     database chooses.
     */
    method Bootstrap(
      plain: string, gateway: GatewayId, csrEmpty: bool, serial: string,
      node: NodeId, identity: IdentityId, signed: Option<Certificate>, now: Time, failAt: nat)
      returns (r: Result<(NodeId, Certificate), Error>, ghost token: Option<TokenId>)
      modifies this
      ensures csrEmpty ==> r == Err(CsrInvalid)
      ensures !csrEmpty ==> Selects(old(Snapshot()), Sha256(plain), token)
      ensures !csrEmpty && failAt > 5 ==>
                match BootstrapTx(old(Snapshot()), token, gateway, serial, node, identity, signed, now)
                case Ok(d) => r.Ok? && Snapshot() == d
                case Err(e) => r == Err(e)
      ensures token.Some? && !csrEmpty ==>
                token.value in old(tokens) && old(tokens)[token.value].hash == Sha256(plain)
      ensures !csrEmpty && failAt > 5 ==>
                (r.Ok? <==>
                   && token.Some?
                   && IsUsable(old(tokens)[token.value], gateway, now)
                   && signed.Some? && node !in old(nodes) && identity !in old(identities)
                   && forall i :: i in old(identities) ==>
                        var row := old(identities)[i];
                        && row.node != node && row.fingerprint != signed.value.fingerprint
                        && (row.serial == serial ==> row.status == Revoked))
      ensures !csrEmpty && failAt > 5 && token.Some? && IsUsable(old(tokens)[token.value], gateway, now) && r.Err? ==>
                r.error == if serial != "" && exists i :: i in old(identities) && old(identities)[i].serial == serial
                                                         && old(identities)[i].status != Revoked then IdentityConflict
                           else if node in old(nodes) then Internal
                           else if signed == None then CsrInvalid
                           else IdentityConflict
      ensures r.Ok? ==>
                && token.Some? && token.value in old(tokens) && signed.Some?
                && tokens == old(tokens)[
                     token.value := old(tokens)[token.value].(usedCount := old(tokens)[token.value].usedCount + 1)]
                && nodes == old(nodes)[node := NodeRow(gateway, NodeActive)]
                && identities == old(identities)[identity := IdentityRow(
                     node, gateway, serial, signed.value.fingerprint, Active, signed.value.expiresAt)]
      ensures r.Ok? ==> signed.Some? && r.value == (node, signed.value)
                        && BootstrapTx(old(Snapshot()), token, gateway, serial, node, identity, signed, now)
                            == Ok(Snapshot())
      ensures r.Err? ==> Snapshot() == old(Snapshot())
    {
      token := None;
      if csrEmpty {
        return Err(CsrInvalid), None;
      }
      var saved := Snapshot();
      var used;
      used, token := ValidateAndConsume(plain, gateway, now, failAt == 0, failAt == 1);
      var failure: Option<Error> := if used.Err? then Some(used.error) else None;
      if failure == None && serial != "" {
        if failAt == 2 {
          failure := Some(Internal);
        } else if SerialTaken(Snapshot(), serial) {
          failure := Some(IdentityConflict);
        }
      }
      if failure == None {
        if failAt == 3 || node in nodes {
          failure := Some(Internal);
        } else {
          nodes := nodes[node := NodeRow(gateway, NodeActive)];
          if signed == None {
            failure := Some(CsrInvalid);
          } else {
            var row := IdentityRow(node, gateway, serial, signed.value.fingerprint, Active, signed.value.expiresAt);
            if failAt == 4 {
              failure := Some(Internal);
            } else if !CanInsertIdentity(Snapshot(), identity, row) {
              failure := Some(IdentityConflict);
            } else {
              identities := identities[identity := row];
            }
          }
        }
      }
      if failure == None && failAt == 5 {
        failure := Some(Internal);
      }
      if failure.Some? {
        Rollback(saved);
        return Err(failure.value), token;
      }
      return Ok((node, signed.value)), token;
    }

    /** The renewal's first half: a plain read outside any transaction, and the threshold. */
    method RenewRead(node: NodeId, csrEmpty: bool, threshold: int, now: Time, fault: bool)
      returns (r: Result<IdentityId, Error>)
      ensures csrEmpty ==> r == Err(CsrInvalid)
      ensures r.Ok? ==> r.value in identities && identities[r.value].node == node
                        && identities[r.value].status == Active
                        && identities[r.value].expiresAt - now <= threshold
      ensures !csrEmpty && fault ==> r == Err(Internal)
      ensures !csrEmpty && !fault ==>
                (r == Err(RevokedIdentity) <==>
                   forall i :: i in identities ==> identities[i].node != node || identities[i].status != Active)
      ensures !csrEmpty && !fault && r == Err(RenewNotAllowed) ==>
                exists i :: i in identities && identities[i].node == node && identities[i].status == Active
                            && identities[i].expiresAt - now > threshold
      ensures r.Err? && !csrEmpty && !fault ==> r.error in {RevokedIdentity, RenewNotAllowed}
    {
      if csrEmpty {
        return Err(CsrInvalid);
      }
      if fault {
        return Err(Internal);
      }
      if !exists i :: i in identities && identities[i].node == node && identities[i].status == Active {
        return Err(RevokedIdentity);
      }
      var id :| id in identities && identities[id].node == node && identities[id].status == Active;
      if identities[id].expiresAt - now > threshold {
        return Err(RenewNotAllowed);
      }
      return Ok(id);
    }

    /** The renewal's second half, after other callers may have run. */
    method RenewWrite(id: IdentityId, cert: Certificate, fault: bool) returns (ok: bool)
      modifies this`identities
      ensures ok <==> !fault && RenewTx(old(Snapshot()), id, cert).Ok?
      ensures Snapshot() == if ok then RenewTx(old(Snapshot()), id, cert).value else old(Snapshot())
      ensures ok <==> !fault && (id in old(identities) && old(identities)[id].fingerprint != cert.fingerprint ==>
                                   forall i :: i in old(identities) ==>
                                       old(identities)[i].fingerprint != cert.fingerprint)
      ensures ok && id in old(identities) ==>
                identities == old(identities)[id := old(identities)[id].(
                  fingerprint := cert.fingerprint, expiresAt := cert.expiresAt)]
      ensures !ok || id !in old(identities) ==> identities == old(identities)
    {
      if fault || (id in identities && FingerprintTaken(Snapshot(), cert.fingerprint)
                   && identities[id].fingerprint != cert.fingerprint) {
        return false;
      }
      if id in identities {
        identities := identities[id := identities[id].(fingerprint := cert.fingerprint, expiresAt := cert.expiresAt)];
      }
      return true;
    }

    method RevokeNode(node: NodeId, failAt: nat) returns (r: Result<(), Error>)
      modifies this
      ensures r.Ok? <==> failAt > 2 && RevokeTx(old(Snapshot()), node).Ok?
      ensures r.Ok? ==> RevokeTx(old(Snapshot()), node) == Ok(Snapshot())
      ensures failAt > 2 ==>
                (r.Ok? <==> exists i :: i in old(identities) && old(identities)[i].node == node
                                        && old(identities)[i].status != Revoked)
      ensures r.Err? && failAt > 2 ==> r.error == RevokedIdentity
      ensures r.Ok? ==>
                && tokens == old(tokens) && identities.Keys == old(identities).Keys && nodes.Keys == old(nodes).Keys
                && (forall i :: i in identities ==>
                      identities[i] == if old(identities)[i].node == node then old(identities)[i].(status := Revoked)
                                       else old(identities)[i])
                && (forall n :: n in nodes ==>
                      nodes[n] == if n == node then old(nodes)[n].(status := NodeRevoked) else old(nodes)[n])
      ensures r.Err? ==> Snapshot() == old(Snapshot())
      ensures failAt > 2 && r.Err? ==> r.error == RevokedIdentity
    {
      if failAt == 0 {
        return Err(Internal);
      }
      var saved := Snapshot();
      if !exists i :: i in identities && identities[i].node == node && IsLive(identities[i].status) {
        return Err(RevokedIdentity);
      }
      identities := map i | i in identities :: RevokedRow(identities[i], node);
      if failAt != 1 && node in nodes {
        nodes := nodes[node := nodes[node].(status := NodeRevoked)];
      }
      if failAt == 1 || failAt == 2 {
        Rollback(saved);
        return Err(Internal);
      }
      return Ok(());
    }
  }
}
