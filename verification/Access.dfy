/** Registry and handlers together: under whose id an entry stands is decided by whose secret came with
    the request (cmd/server/auth.go, cmd/server/router.go, cmd/server/clientstore_postgres.go). */
module Access {
  import opened Strings
  import opened Codecs
  import opened Chain
  import opened Verify
  import opened Registry
  import opened Handlers

  /** What the server is called with, in order: an administrative call, or a write with its token. */
  datatype Call = Admin(op: Op) | Post(token: string, body: Option<LogRecord>, timestamp: string, written: bool)

  /** The administrative calls among the first `n`. */
  function OpsOf(calls: seq<Call>, n: nat): seq<Op>
    requires n <= |calls|
    decreases n
  {
    if n == 0 then [] else
    match calls[n - 1]
    case Admin(op) => OpsOf(calls, n - 1) + [op]
    case Post(_, _, _, _) => OpsOf(calls, n - 1)
  }

  function TableOf(h: Hash, calls: seq<Call>, n: nat): Table
    requires n <= |calls|
  {
    Run(h, OpsOf(calls, n)).0
  }

  /** The secrets handed out and the revocations among the first `n`. */
  function HistoryOf(h: Hash, calls: seq<Call>, n: nat): seq<Event>
    requires n <= |calls|
  {
    Run(h, OpsOf(calls, n)).1
  }

  /** The principal that call `k` is admitted as, if it is a write that gets past authentication. */
  function Caller(h: Hash, calls: seq<Call>, k: nat): Option<Principal>
    requires k < |calls|
  {
    if calls[k].Post? then Admitted(h, TableOf(h, calls, k), calls[k].token) else None
  }

  /** What the handler then serves. */
  function WriteOf(h: Hash, calls: seq<Call>, k: nat): Write
    requires k < |calls| && Caller(h, calls, k).Some?
  {
    Write(Caller(h, calls, k).value, calls[k].body, calls[k].timestamp, calls[k].written)
  }

  /** The store after the first `n` calls, and its log. */
  function StoreAfter(h: Hash, c: Codec, calls: seq<Call>, n: nat): FileStore.Store
    requires n <= |calls|
    decreases n
  {
    if n == 0 then FileStore.Store([], 0, GENESIS) else AfterCall(h, c, calls, n - 1, StoreAfter(h, c, calls, n - 1))
  }

  function AfterCall(h: Hash, c: Codec, calls: seq<Call>, k: nat, s: FileStore.Store): FileStore.Store
    requires k < |calls|
  {
    if Caller(h, calls, k).None? then s else Served(h, c, s, WriteOf(h, calls, k))
  }

  function LogAfter(h: Hash, c: Codec, calls: seq<Call>, n: nat): seq<Entry>
    requires n <= |calls|
  {
    LogOf(c, StoreAfter(h, c, calls, n))
  }

  ghost predicate KeepsCall(h: Hash, c: Codec, calls: seq<Call>, k: nat)
    requires k < |calls|
  {
    Caller(h, calls, k).Some? ==> KeepsWrite(c, WriteOf(h, calls, k))
  }

  ghost predicate KeepsCalls(h: Hash, c: Codec, calls: seq<Call>) {
    |calls| <= MAX_UINT64 && forall k {:trigger KeepsCall(h, c, calls, k)} :: 0 <= k < |calls| ==> KeepsCall(h, c, calls, k)
  }

  /** Call `k` is a write with the current secret of `id`, or with one that collides with it. */
  predicate PostedBy(h: Hash, calls: seq<Call>, k: nat, id: string) {
    && k < |calls| && calls[k].Post? && ParseToken(calls[k].token).Some?
    && var (who, secret) := ParseToken(calls[k].token).value;
    && who == id
    && (|| Current(HistoryOf(h, calls, k), calls[k].token)
        || (Latest(HistoryOf(h, calls, k), id).Some? && Collision(h, secret, Latest(HistoryOf(h, calls, k), id).value)))
  }

  lemma AdmittedPosts(h: Hash, calls: seq<Call>, k: nat)
    requires k < |calls| && calls[k].Post? && Admitted(h, TableOf(h, calls, k), calls[k].token).Some?
    ensures PostedBy(h, calls, k, Admitted(h, TableOf(h, calls, k), calls[k].token).value.clientId)
  {
    AuthenticatesCurrent(h, OpsOf(calls, k), calls[k].token);
  }

  lemma CallKeeps(h: Hash, c: Codec, calls: seq<Call>, k: nat, s: FileStore.Store)
    requires KeepsCalls(h, c, calls) && k < |calls| && Sound(h, c, s) && s.lastIndex <= k
    ensures Sound(h, c, AfterCall(h, c, calls, k, s)) && AfterCall(h, c, calls, k, s).lastIndex <= k + 1
    ensures AddsAtMostOne(h, c, calls, k, LogOf(c, s), LogOf(c, AfterCall(h, c, calls, k, s)))
  {
    assert KeepsCall(h, c, calls, k);
    if Caller(h, calls, k).Some? {
      ServedAppends(h, c, s, WriteOf(h, calls, k));
    }
  }

  /** Stores as the calls go by. */
  type Stores = nat -> FileStore.Store

  ghost predicate StepsBy(h: Hash, c: Codec, calls: seq<Call>, stores: Stores, k: nat)
    requires k < |calls|
  {
    stores(k + 1) == AfterCall(h, c, calls, k, stores(k))
  }

  lemma {:induction false} SoundThroughout(h: Hash, c: Codec, calls: seq<Call>, stores: Stores, n: nat)
    requires KeepsCalls(h, c, calls) && n <= |calls| && stores(0) == FileStore.Store([], 0, GENESIS)
    requires forall k {:trigger StepsBy(h, c, calls, stores, k)} :: 0 <= k < n ==> StepsBy(h, c, calls, stores, k)
    ensures Sound(h, c, stores(n)) && stores(n).lastIndex <= n
    decreases n
  {
    if n == 0 {
      EmptySound(h, c);
    } else {
      SoundThroughout(h, c, calls, stores, n - 1);
      assert StepsBy(h, c, calls, stores, n - 1);
      NextSound(h, c, calls, n - 1, stores(n - 1), stores(n));
    }
  }

  lemma StoreSound(h: Hash, c: Codec, calls: seq<Call>, n: nat)
    requires KeepsCalls(h, c, calls) && n <= |calls|
    ensures Sound(h, c, StoreAfter(h, c, calls, n)) && StoreAfter(h, c, calls, n).lastIndex <= n
  {
    var stores: Stores := (i: nat) => if i <= |calls| then StoreAfter(h, c, calls, i) else FileStore.Store([], 0, GENESIS);
    StoresStep(h, c, calls, stores, n);
    SoundThroughout(h, c, calls, stores, n);
  }

  lemma StoresStep(h: Hash, c: Codec, calls: seq<Call>, stores: Stores, n: nat)
    requires n <= |calls| && forall i: nat {:trigger stores(i)} :: i <= |calls| ==> stores(i) == StoreAfter(h, c, calls, i)
    ensures stores(0) == FileStore.Store([], 0, GENESIS)
    ensures forall k {:trigger StepsBy(h, c, calls, stores, k)} :: 0 <= k < n ==> StepsBy(h, c, calls, stores, k)
  {
  }

  lemma NextSound(h: Hash, c: Codec, calls: seq<Call>, k: nat, s: FileStore.Store, s': FileStore.Store)
    requires KeepsCalls(h, c, calls) && k < |calls| && Sound(h, c, s) && s.lastIndex <= k && s' == AfterCall(h, c, calls, k, s)
    ensures Sound(h, c, s') && s'.lastIndex <= k + 1
  {
    CallKeeps(h, c, calls, k, s);
  }

  lemma EmptySound(h: Hash, c: Codec)
    ensures Sound(h, c, FileStore.Store([], 0, GENESIS))
  {
  }

  /** What call `k` does to the log: nothing, or, as a write that is admitted, one entry under its
      principal. */
  ghost predicate AddsAtMostOne(h: Hash, c: Codec, calls: seq<Call>, k: nat, before: seq<Entry>, after: seq<Entry>)
    requires k < |calls|
  {
    after == before ||
    (|after| == |before| + 1 && before <= after && Caller(h, calls, k).Some?
     && after[|before|].record.clientId == Caller(h, calls, k).value.clientId)
  }

  lemma CallAdds(h: Hash, c: Codec, calls: seq<Call>, k: nat)
    requires KeepsCalls(h, c, calls) && k < |calls|
    ensures AddsAtMostOne(h, c, calls, k, LogAfter(h, c, calls, k), LogAfter(h, c, calls, k + 1))
  {
    StoreSound(h, c, calls, k);
    CallKeeps(h, c, calls, k, StoreAfter(h, c, calls, k));
  }

  /** Logs as the calls go by. */
  type Logs = nat -> seq<Entry>

  ghost predicate Adds(h: Hash, c: Codec, calls: seq<Call>, logs: Logs, k: nat)
    requires k < |calls|
  {
    AddsAtMostOne(h, c, calls, k, logs(k), logs(k + 1))
  }

  /** Every entry comes in with one of the calls, and stays. */
  lemma {:induction false} ComesIn(h: Hash, c: Codec, calls: seq<Call>, logs: Logs, n: nat, j: nat) returns (k: nat)
    requires n <= |calls| && logs(0) == [] && j < |logs(n)|
    requires forall i {:trigger Adds(h, c, calls, logs, i)} :: 0 <= i < n ==> Adds(h, c, calls, logs, i)
    ensures k < n && |logs(k)| == j < |logs(k + 1)| && logs(k + 1)[j] == logs(n)[j]
    decreases n
  {
    LastAdds(h, c, calls, logs, n, j);
    if j < |logs(n - 1)| {
      k := ComesIn(h, c, calls, logs, n - 1, j);
    } else {
      k := n - 1;
    }
  }

  lemma LastAdds(h: Hash, c: Codec, calls: seq<Call>, logs: Logs, n: nat, j: nat)
    requires n <= |calls| && logs(0) == [] && j < |logs(n)|
    requires n > 0 ==> Adds(h, c, calls, logs, n - 1)
    ensures n > 0 && j <= |logs(n - 1)| && (j < |logs(n - 1)| ==> logs(n - 1)[j] == logs(n)[j])
  {
  }

  /** Nobody writes under an id without its secret: the call that added an entry is a write with the
      secret current at that moment of the id the entry stands under, or with one that collides with it,
      whatever the bodies claim and however secrets are rotated and clients revoked before and after. */
  lemma EntryNeedsSecret(h: Hash, c: Codec, calls: seq<Call>, j: nat) returns (k: nat)
    requires KeepsCalls(h, c, calls) && j < |LogAfter(h, c, calls, |calls|)|
    ensures k < |calls| && |LogAfter(h, c, calls, k)| == j < |LogAfter(h, c, calls, k + 1)|
    ensures LogAfter(h, c, calls, k + 1)[j] == LogAfter(h, c, calls, |calls|)[j]
    ensures PostedBy(h, calls, k, LogAfter(h, c, calls, |calls|)[j].record.clientId)
  {
    var logs: Logs := (i: nat) => if i <= |calls| then LogAfter(h, c, calls, i) else [];
    LogsAdd(h, c, calls, logs);
    k := ComesIn(h, c, calls, logs, |calls|, j);
    assert Adds(h, c, calls, logs, k);
    AdmittedPosts(h, calls, k);
  }

  lemma LogsAdd(h: Hash, c: Codec, calls: seq<Call>, logs: Logs)
    requires KeepsCalls(h, c, calls)
    requires forall i {:trigger logs(i)} :: 0 <= i <= |calls| ==> logs(i) == LogAfter(h, c, calls, i)
    ensures logs(0) == []
    ensures forall i {:trigger Adds(h, c, calls, logs, i)} :: 0 <= i < |calls| ==> Adds(h, c, calls, logs, i)
  {
    forall i | 0 <= i < |calls| ensures Adds(h, c, calls, logs, i) {
      CallAdds(h, c, calls, i);
    }
  }

  /** And who has the current secret can write: a complete body that the store accepts adds one entry under
      that id, with the body's texts. */
  lemma CurrentTokenWrites(h: Hash, c: Codec, calls: seq<Call>, k: nat, record: LogRecord)
    requires KeepsCalls(h, c, calls) && k < |calls| && calls[k].Post? && Current(HistoryOf(h, calls, k), calls[k].token)
    requires KeepsTexts(c, record) && Complete(Principal(ParseToken(calls[k].token).value.0, "", ""), calls[k].body)
    requires StoredOf(Principal(ParseToken(calls[k].token).value.0, "", ""), calls[k].body.value, record)
    requires FileStore.Accepted(h, c, StoreAfter(h, c, calls, k), record, calls[k].timestamp, calls[k].written)
    ensures var log, log' := LogAfter(h, c, calls, k), LogAfter(h, c, calls, k + 1);
            |log'| == |log| + 1 && log <= log' && SameTexts(log'[|log|].record, record)
  {
    AuthenticatesCurrent(h, OpsOf(calls, k), calls[k].token);
    StoreSound(h, c, calls, k);
    AdmittedWrite(h, c, calls, k, StoreAfter(h, c, calls, k), record);
  }

  lemma AdmittedWrite(h: Hash, c: Codec, calls: seq<Call>, k: nat, s: FileStore.Store, record: LogRecord)
    requires KeepsCalls(h, c, calls) && k < |calls| && Caller(h, calls, k).Some? && Sound(h, c, s) && s.lastIndex < MAX_UINT64
    requires var w := WriteOf(h, calls, k);
             && Complete(w.who, w.body) && StoredOf(w.who, w.body.value, record) && KeepsTexts(c, record)
             && FileStore.Accepted(h, c, s, record, w.timestamp, w.written)
    ensures var log, log' := LogOf(c, s), LogOf(c, AfterCall(h, c, calls, k, s));
            |log'| == |log| + 1 && log <= log' && SameTexts(log'[|log|].record, record)
  {
    assert KeepsCall(h, c, calls, k);
    var w := WriteOf(h, calls, k);
    ServedAppends(h, c, s, w);
    var e := ServedExactly(h, c, s, w, record);
    LineIsRead(h, c, s, w, record, e);
  }

  /** And once an id is revoked no later call with any of its tokens changes the store. */
  lemma RevokedWritesNothing(h: Hash, c: Codec, calls: seq<Call>, n: nat, k: nat)
    requires n <= k < |calls| && calls[k].Post? && ParseToken(calls[k].token).Some?
    requires Revoked(ParseToken(calls[k].token).value.0) in HistoryOf(h, calls, n)
    ensures Caller(h, calls, k).None? && StoreAfter(h, c, calls, k + 1) == StoreAfter(h, c, calls, k)
  {
    OpsGrow(calls, n, k);
    RevokedForever(h, OpsOf(calls, k), |OpsOf(calls, n)|, calls[k].token);
  }

  lemma {:induction false} OpsGrow(calls: seq<Call>, n: nat, k: nat)
    requires n <= k <= |calls|
    ensures |OpsOf(calls, n)| <= |OpsOf(calls, k)| && OpsOf(calls, k)[..|OpsOf(calls, n)|] == OpsOf(calls, n)
    decreases k
  {
    if n < k {
      OpsGrow(calls, n, k - 1);
    }
  }
}
