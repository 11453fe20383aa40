/** The client registry (cmd/server/clientstore_postgres.go): which tokens authenticate, judged
    against the history of secrets actually handed out. */
module Registry {
  import opened Strings
  import opened Codecs
  import opened Chain

  const ROLE_CLIENT := "client"
  const ROLE_ADMIN := "admin"

  datatype Principal = Principal(clientId: string, name: string, role: string)

  /** A row of audit_clients; the table is keyed by client_id. */
  datatype Client = Client(name: string, tokenHash: string, role: string, revoked: bool)

  type Table = map<string, Client>

  /** An administrative call with the id and secret the random source would deliver to it. */
  datatype Op = Register(name: string, role: string, id: string, secret: string)
              | Rotate(clientId: string, secret: string)
              | Revoke(clientId: string)

  /** What a successful call gives the caller: a token's two parts, or a revocation. */
  datatype Event = Issued(id: string, secret: string) | Revoked(id: string)

  function ActiveId(t: Table, clientId: string): Result<string> {
    var id := TrimSpace(clientId);
    if id == "" then Err("client id is required")
    else if id !in t || t[id].revoked then Err("no active client")
    else Ok(id)
  }

  function RoleOr(role: string): string { if TrimSpace(role) == "" then ROLE_CLIENT else TrimSpace(role) }

  /** The new table and the reply of one call; a failed call changes nothing. */
  function Apply(h: Hash, t: Table, op: Op): (Table, Result<Event>) {
    match op
    case Register(name, role, id, secret) =>
      if TrimSpace(name) == "" then (t, Err("client name is required"))
      else if RoleOr(role) != ROLE_CLIENT && RoleOr(role) != ROLE_ADMIN then (t, Err("invalid role"))
      else if id in t then (t, Err("duplicate key"))
      else (t[id := Client(TrimSpace(name), h(secret), RoleOr(role), false)], Ok(Issued(id, secret)))
    case Rotate(clientId, secret) =>
      match ActiveId(t, clientId) {
        case Err(e) => (t, Err(e))
        case Ok(id) => (t[id := t[id].(tokenHash := h(secret))], Ok(Issued(id, secret)))
      }
    case Revoke(clientId) =>
      match ActiveId(t, clientId) {
        case Err(e) => (t, Err(e))
        case Ok(id) => (t[id := t[id].(revoked := true)], Ok(Revoked(id)))
      }
  }

  function Admitted(h: Hash, t: Table, token: string): Option<Principal> {
    match ParseToken(token)
    case None => None
    case Some((id, secret)) =>
      if id !in t || t[id].revoked || h(secret) != t[id].tokenHash then None
      else Some(Principal(id, t[id].name, t[id].role))
  }

  // ----- Runs, and the history they leave -----

  function Run(h: Hash, ops: seq<Op>): (Table, seq<Event>) {
    if ops == [] then (map[], []) else
    var (t, events) := Run(h, ops[..|ops| - 1]);
    var (t', reply) := Apply(h, t, ops[|ops| - 1]);
    (t', if reply.Ok? then events + [reply.value] else events)
  }

  /** The secret most recently handed out for `id`. */
  function Latest(events: seq<Event>, id: string): Option<string> {
    if events == [] then None else
    var last := events[|events| - 1];
    if last.Issued? && last.id == id then Some(last.secret) else Latest(events[..|events| - 1], id)
  }

  /** The table is the history's summary. */
  ghost predicate Summarises(h: Hash, t: Table, events: seq<Event>) {
    forall id ::
      && (id in t <==> Latest(events, id).Some?)
      && (id in t ==> t[id].tokenHash == h(Latest(events, id).value))
      && (id in t ==> (t[id].revoked <==> Revoked(id) in events))
      && (id !in t ==> Revoked(id) !in events)
  }

  /** What a successful call does to one row: a secret is issued to a new or active client, or an
      active client is revoked; name and role of an existing row stay. */
  predicate RowChange(h: Hash, t: Table, id: string, row: Client, event: Event) {
    && event.id == id
    && (id in t ==> !t[id].revoked && row.name == t[id].name && row.role == t[id].role)
    && match event
       case Issued(_, secret) => row.tokenHash == h(secret) && !row.revoked
       case Revoked(_) => id in t && row.tokenHash == t[id].tokenHash && row.revoked
  }

  lemma ApplyChangesOneRow(h: Hash, t: Table, op: Op) returns (row: Client)
    ensures var (t', reply) := Apply(h, t, op);
            (reply.Err? ==> t' == t) &&
            (reply.Ok? ==> t' == t[reply.value.id := row] && RowChange(h, t, reply.value.id, row, reply.value))
  {
    var (t', reply) := Apply(h, t, op);
    if reply.Ok? {
      row := t'[reply.value.id];
    } else {
      row := Client("", "", "", false);
    }
  }

  /** The role that a registration asks for: a blank one is "client". */
  predicate AsksFor(role: string, granted: string) { granted == if TrimSpace(role) == "" then "client" else TrimSpace(role) }

  /** Exactly when a call succeeds, by its arguments and the table, and what it then leaves of the row. */
  lemma SucceedsIff(h: Hash, t: Table, op: Op)
    ensures var (t', reply) := Apply(h, t, op);
            match op
            case Register(name, role, id, secret) =>
              && (reply.Ok? <==> TrimSpace(name) != "" && TrimSpace(role) in {"", "client", "admin"} && id !in t)
              && (reply.Ok? ==> t'.Keys == t.Keys + {id} && t'[id].name == TrimSpace(name) && AsksFor(role, t'[id].role)
                                && t'[id].tokenHash == h(secret) && !t'[id].revoked)
            case Rotate(clientId, secret) =>
              var id := TrimSpace(clientId);
              && (reply.Ok? <==> id != "" && id in t && !t[id].revoked)
              && (reply.Ok? ==> t' == t[id := Client(t[id].name, h(secret), t[id].role, false)])
            case Revoke(clientId) =>
              var id := TrimSpace(clientId);
              && (reply.Ok? <==> id != "" && id in t && !t[id].revoked)
              && (reply.Ok? ==> t' == t[id := Client(t[id].name, t[id].tokenHash, t[id].role, true)])
  {
  }

  /** Operation `n` registered `id` with this name and role. */
  predicate RegisteredBy(h: Hash, ops: seq<Op>, n: nat, id: string, name: string, role: string) {
    && n < |ops| && ops[n].Register? && ops[n].id == id && id !in Run(h, ops[..n]).0
    && name == TrimSpace(ops[n].name) && name != "" && AsksFor(ops[n].role, role)
  }

  lemma {:induction false} RowIsRegistered(h: Hash, ops: seq<Op>, id: string) returns (n: nat)
    requires id in Run(h, ops).0
    ensures var row := Run(h, ops).0[id]; RegisteredBy(h, ops, n, id, row.name, row.role)
    decreases |ops|
  {
    var init, op := ops[..|ops| - 1], ops[|ops| - 1];
    var row := ApplyChangesOneRow(h, Run(h, init).0, op);
    SucceedsIff(h, Run(h, init).0, op);
    if id in Run(h, init).0 {
      n := RowIsRegistered(h, init, id);
      assert init[..n] == ops[..n];
    } else {
      n := |ops| - 1;
    }
  }

  /** After every run an admitted principal is the token's id with the name and role that the call which
      registered that id asked for, so an admin is admitted only if it was registered as one. */
  lemma PrincipalIsRegistered(h: Hash, ops: seq<Op>, token: string) returns (n: nat)
    requires Admitted(h, Run(h, ops).0, token).Some?
    ensures var who := Admitted(h, Run(h, ops).0, token).value;
            && ParseToken(token).Some? && who.clientId == ParseToken(token).value.0
            && RegisteredBy(h, ops, n, who.clientId, who.name, who.role)
            && (who.role == "admin" ==> TrimSpace(ops[n].role) == "admin")
  {
    n := RowIsRegistered(h, ops, ParseToken(token).value.0);
  }

  lemma RowChangeSummarised(h: Hash, t: Table, events: seq<Event>, row: Client, event: Event)
    requires Summarises(h, t, events) && RowChange(h, t, event.id, row, event)
    ensures Summarises(h, t[event.id := row], events + [event])
  {
    var t', events' := t[event.id := row], events + [event];
    assert events'[..|events|] == events;
    forall id
      ensures Latest(events', id) == if event.Issued? && event.id == id then Some(event.secret) else Latest(events, id)
      ensures Revoked(id) in events' <==> Revoked(id) in events || event == Revoked(id)
    {}
  }

  lemma ApplySummarises(h: Hash, t: Table, events: seq<Event>, op: Op)
    requires Summarises(h, t, events)
    ensures var (t', reply) := Apply(h, t, op);
            Summarises(h, t', if reply.Ok? then events + [reply.value] else events)
  {
    var reply := Apply(h, t, op).1;
    var row := ApplyChangesOneRow(h, t, op);
    if reply.Ok? {
      RowChangeSummarised(h, t, events, row, reply.value);
    }
  }

  lemma {:induction false} RunSummarises(h: Hash, ops: seq<Op>)
    ensures var (t, events) := Run(h, ops); Summarises(h, t, events)
  {
    if ops != [] {
      RunSummarises(h, ops[..|ops| - 1]);
      var (t, events) := Run(h, ops[..|ops| - 1]);
      ApplySummarises(h, t, events, ops[|ops| - 1]);
    }
  }

  /** The token names an id that was issued secrets and never revoked, and carries the last one. */
  predicate Current(events: seq<Event>, token: string) {
    && ParseToken(token).Some?
    && var (id, secret) := ParseToken(token).value;
    Latest(events, id) == Some(secret) && Revoked(id) !in events
  }

  /** After every run, exactly the current tokens authenticate, up to collisions of the hash: a
      current token always does, and any other token that does collides with the current secret. */
  lemma AuthenticatesCurrent(h: Hash, ops: seq<Op>, token: string)
    ensures var (t, events) := Run(h, ops);
            && (Current(events, token) ==> Admitted(h, t, token).Some?)
            && (Admitted(h, t, token).Some? ==>
                  || Current(events, token)
                  || (var (id, secret) := ParseToken(token).value;
                      Latest(events, id).Some? && Collision(h, secret, Latest(events, id).value)))
  {
    RunSummarises(h, ops);
  }

  lemma {:induction false} HistoryGrows(h: Hash, ops: seq<Op>, n: nat)
    requires n <= |ops|
    ensures Run(h, ops[..n]).1 <= Run(h, ops).1
  {
    if n == |ops| {
      assert ops[..n] == ops;
    } else {
      assert ops[..|ops| - 1][..n] == ops[..n];
      HistoryGrows(h, ops[..|ops| - 1], n);
    }
  }

  /** Revocation is permanent: no token for a revoked id authenticates after any further calls. */
  lemma RevokedForever(h: Hash, ops: seq<Op>, n: nat, token: string)
    requires n <= |ops| && ParseToken(token).Some?
    requires Revoked(ParseToken(token).value.0) in Run(h, ops[..n]).1
    ensures Admitted(h, Run(h, ops).0, token).None?
  {
    HistoryGrows(h, ops, n);
    RunSummarises(h, ops);
  }

  /** A client's id, name and role never change once registered, whatever is rotated or revoked. */
  lemma {:induction false} IdentityIsFixed(h: Hash, ops: seq<Op>, n: nat, id: string)
    requires n <= |ops| && id in Run(h, ops[..n]).0
    ensures id in Run(h, ops).0
    ensures Run(h, ops).0[id].name == Run(h, ops[..n]).0[id].name
    ensures Run(h, ops).0[id].role == Run(h, ops[..n]).0[id].role
  {
    if n == |ops| {
      assert ops[..n] == ops;
    } else {
      assert ops[..|ops| - 1][..n] == ops[..n];
      IdentityIsFixed(h, ops[..|ops| - 1], n, id);
      var _ := ApplyChangesOneRow(h, Run(h, ops[..|ops| - 1]).0, ops[|ops| - 1]);
    }
  }

  /** Ids and secrets come from newClientID and newSecret. */
  predicate WellDrawn(op: Op) {
    && (op.Register? ==> op.id != "" && IsHex(op.id))
    && (!op.Revoke? ==> op.secret != "" && AllBase64Url(op.secret))
  }

  lemma {:induction false} IdsAreHex(h: Hash, ops: seq<Op>, id: string)
    requires forall i :: 0 <= i < |ops| ==> WellDrawn(ops[i])
    requires id in Run(h, ops).0
    ensures id != "" && IsHex(id)
  {
    var init, op := ops[..|ops| - 1], ops[|ops| - 1];
    assert WellDrawn(op);
    if id in Run(h, init).0 {
      IdsAreHex(h, init, id);
    }
  }

  lemma MatchingTokenAdmitted(h: Hash, t: Table, id: string, secret: string)
    requires id != "" && IsHex(id) && secret != "" && AllBase64Url(secret)
    requires id in t && !t[id].revoked && t[id].tokenHash == h(secret)
    ensures Admitted(h, t, FormatToken(id, secret)) == Some(Principal(id, t[id].name, t[id].role))
  {
    TokenRoundTrip(id, secret);
  }

  lemma IssuedBy(h: Hash, t: Table, op: Op, id: string, secret: string)
    requires Apply(h, t, op).1 == Ok(Issued(id, secret))
    ensures !op.Revoke? && secret == op.secret
    ensures (op.Register? && id == op.id) || (op.Rotate? && id in t)
  {
  }

  lemma IssuedShape(h: Hash, ops: seq<Op>, last: Op, id: string, secret: string)
    requires WellDrawn(last) && forall i :: 0 <= i < |ops| ==> WellDrawn(ops[i])
    requires Apply(h, Run(h, ops).0, last).1 == Ok(Issued(id, secret))
    ensures id != "" && IsHex(id) && secret != "" && AllBase64Url(secret)
  {
    var t := Run(h, ops).0;
    IssuedBy(h, t, last, id, secret);
    if id in t {
      IdsAreHex(h, ops, id);
    }
  }

  /** A token works from the moment Register or Rotate returns it. */
  lemma IssuedTokenWorks(h: Hash, ops: seq<Op>, last: Op, id: string, secret: string)
    requires WellDrawn(last) && forall i :: 0 <= i < |ops| ==> WellDrawn(ops[i])
    requires Apply(h, Run(h, ops).0, last).1 == Ok(Issued(id, secret))
    ensures var t := Apply(h, Run(h, ops).0, last).0;
            id in t && Admitted(h, t, FormatToken(id, secret)) == Some(Principal(id, t[id].name, t[id].role))
  {
    IssuedShape(h, ops, last, id, secret);
    var row := ApplyChangesOneRow(h, Run(h, ops).0, last);
    MatchingTokenAdmitted(h, Run(h, ops).0[id := row], id, secret);
  }

  // ----- The object -----

  class ClientStore {
    const h: Hash
    var rows: Table

    constructor (h: Hash)
      ensures this.h == h && rows == map[]
    {
      this.h, rows := h, map[];
    }

    /** Looks the row up first and compares hashes even when there is none; every failure is the same
        reply. */
    method Authenticate(token: string) returns (r: Option<Principal>)
      ensures r == Admitted(h, rows, token)
    {
      var parsed := ParseToken(token);
      if parsed.None? {
        return None;
      }
      var (clientId, secret) := parsed.value;
      var found := clientId in rows;
      var revoked := found && rows[clientId].revoked;
      var compareHash := if found then rows[clientId].tokenHash else seq(64, _ => '0');
      var matches := h(secret) == compareHash;
      if !found || revoked || !matches {
        return None;
      }
      return Some(Principal(clientId, rows[clientId].name, rows[clientId].role));
    }

    method Register(name: string, role: string, clientId: string, secret: string) returns (r: Result<(string, string)>)
      modifies this
      ensures rows == Apply(h, old(rows), Op.Register(name, role, clientId, secret)).0
      ensures r.Ok? <==> Apply(h, old(rows), Op.Register(name, role, clientId, secret)).1 == Ok(Issued(clientId, secret))
      ensures r.Ok? ==> r.value == (clientId, FormatToken(clientId, secret))
      ensures r.Ok? <==> TrimSpace(name) != "" && TrimSpace(role) in {"", "client", "admin"} && clientId !in old(rows)
      ensures r.Ok? ==> rows.Keys == old(rows).Keys + {clientId} && rows[clientId].name == TrimSpace(name)
                        && AsksFor(role, rows[clientId].role) && !rows[clientId].revoked
    {
      var name := TrimSpace(name);
      if name == "" {
        return Err("client name is required");
      }
      var role := TrimSpace(role);
      if role == "" {
        role := ROLE_CLIENT;
      }
      if role != ROLE_CLIENT && role != ROLE_ADMIN {
        return Err("invalid role");
      }
      if clientId in rows {
        return Err("duplicate key");
      }
      rows := rows[clientId := Client(name, h(secret), role, false)];
      return Ok((clientId, FormatToken(clientId, secret)));
    }

    method Rotate(clientId: string, secret: string) returns (r: Result<string>)
      modifies this
      ensures rows == Apply(h, old(rows), Op.Rotate(clientId, secret)).0
      ensures r.Ok? <==> Apply(h, old(rows), Op.Rotate(clientId, secret)).1 == Ok(Issued(TrimSpace(clientId), secret))
      ensures r.Ok? ==> r.value == FormatToken(TrimSpace(clientId), secret)
      ensures r.Ok? <==> TrimSpace(clientId) != "" && TrimSpace(clientId) in old(rows) && !old(rows)[TrimSpace(clientId)].revoked
    {
      var id := TrimSpace(clientId);
      if id == "" {
        return Err("client id is required");
      }
      if id !in rows || rows[id].revoked {
        return Err("no active client");
      }
      rows := rows[id := rows[id].(tokenHash := h(secret))];
      return Ok(FormatToken(id, secret));
    }

    method Revoke(clientId: string) returns (r: Result<string>)
      modifies this
      ensures rows == Apply(h, old(rows), Op.Revoke(clientId)).0
      ensures r.Ok? <==> Apply(h, old(rows), Op.Revoke(clientId)).1 == Ok(Revoked(TrimSpace(clientId)))
      ensures r.Ok? <==> TrimSpace(clientId) != "" && TrimSpace(clientId) in old(rows) && !old(rows)[TrimSpace(clientId)].revoked
    {
      var id := TrimSpace(clientId);
      if id == "" {
        return Err("client id is required");
      }
      if id !in rows || rows[id].revoked {
        return Err("no active client");
      }
      rows := rows[id := rows[id].(revoked := true)];
      return Ok(id);
    }
  }
}
