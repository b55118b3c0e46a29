/**
 * The background Gmail ingestion service of one account: the set of
 * message ids already stored, the batch loop that stores new messages and
 * saves that set to the account's state file, the connection retry policy,
 * and the stop flag.
 *
 * The Gmail API, the vector store and the state file are not modelled as
 * I/O: each connection attempt's answer and each store call's outcome are
 * parameters, and every write of the state file is recorded as a snapshot
 * of the set in the `saved` field.
 */
module EmailIngestion {
  import opened Wrappers
  import opened Text

  // ---------------------------------------------------------------------------
  // The state file

  /** The account address with '@' and '.' turned into '_'. */
  function SafeEmail(email: String): (r: String)
    ensures |r| == |email|
  {
    ReplaceChar(ReplaceChar(email, '@', '_'), '.', '_')
  }

  /** The path of the account's state file. */
  function StateFile(email: String): String
  {
    "processed_emails/" + SafeEmail(email) + "_processed.json"
  }

  /** The safe name holds neither '@' nor '.' and keeps every other character in place. */
  lemma SafeEmailShape(email: String)
    ensures '@' !in SafeEmail(email) && '.' !in SafeEmail(email)
    ensures forall k :: 0 <= k < |email| && email[k] != '@' && email[k] != '.' ==> SafeEmail(email)[k] == email[k]
  {
    var r := SafeEmail(email);
    forall k | 0 <= k < |r|
      ensures r[k] != '@' && r[k] != '.'
    {
    }
  }

  /** Different accounts can share a state file: "a.b@x.com" and "a_b@x.com" both map to "a_b_x_com". */
  lemma StateFilesCanCollide()
    ensures StateFile("a.b@x.com") == StateFile("a_b@x.com")
  {
    assert SafeEmail("a.b@x.com") == "a_b_x_com";
    assert SafeEmail("a_b@x.com") == "a_b_x_com";
  }

  // ---------------------------------------------------------------------------
  // The batch loop of process_new_emails

  /**
   * Which arguments a call of `add_to_chroma(doc_id, content, metadata, embedding)` supplies;
   * content and metadata are always passed.
   */
  datatype StoreCall = StoreCall(passesDocId: bool, passesEmbedding: bool)

  /** The call as written passes only `content` and `metadata`. */
  const AsWrittenCall := StoreCall(false, false)

  /** The call with the two arguments the store requires. */
  const IntendedCall := StoreCall(true, true)

  /** A call returns normally when it supplies every required argument and the upsert succeeds. */
  predicate Returns(call: StoreCall, upsertOk: bool) {
    call.passesDocId && call.passesEmbedding && upsertOk
  }

  /**
   * The loop's bookkeeping after some messages: the processed set, the number newly stored,
   * the snapshots written every 10th stored message, and the ids the store was called for.
   */
  datatype Batch = Batch(processed: set<String>, count: nat, saves: seq<set<String>>, calls: seq<String>)

  /**
   * One message (`None` when it has no 'id' key, which raises a `KeyError` that the loop logs):
   * a known id is skipped; otherwise the store is called, and only if it returns is the id
   * added and counted.
   */
  function Step(b: Batch, message: Option<String>, call: StoreCall, upsertOk: String -> bool): Batch
  {
    match message
    case None => b
    case Some(id) =>
      if id in b.processed then b
      else if !Returns(call, upsertOk(id)) then b.(calls := b.calls + [id])
      else
        var p := b.processed + {id};
        var c := b.count + 1;
        Batch(p, c, if c % 10 == 0 then b.saves + [p] else b.saves, b.calls + [id])
  }

  /** The bookkeeping after handling `messages` in order, starting from the set `start`. */
  function RunBatch(start: set<String>, messages: seq<Option<String>>, call: StoreCall, upsertOk: String -> bool): Batch
  {
    if messages == [] then Batch(start, 0, [], [])
    else Step(RunBatch(start, messages[..|messages| - 1], call, upsertOk), messages[|messages| - 1], call, upsertOk)
  }

  /** An id ends in the set exactly when it was there or some message with it was stored. */
  lemma {:induction false} BatchProcessedExact(start: set<String>, messages: seq<Option<String>>, call: StoreCall, upsertOk: String -> bool)
    ensures forall id :: id in RunBatch(start, messages, call, upsertOk).processed <==>
      id in start || exists i :: 0 <= i < |messages| && messages[i] == Some(id) && Returns(call, upsertOk(id))
    decreases |messages|
  {
    if messages != [] {
      var n := |messages| - 1;
      BatchProcessedExact(start, messages[..n], call, upsertOk);
      assert forall i :: 0 <= i < n ==> messages[..n][i] == messages[i];
    }
  }

  /** The count is the number of ids added to the set. */
  lemma {:induction false} BatchCounts(start: set<String>, messages: seq<Option<String>>, call: StoreCall, upsertOk: String -> bool)
    ensures var b := RunBatch(start, messages, call, upsertOk);
      start <= b.processed && b.count == |b.processed - start|
    decreases |messages|
  {
    if messages != [] {
      var n := |messages| - 1;
      var b := RunBatch(start, messages[..n], call, upsertOk);
      BatchCounts(start, messages[..n], call, upsertOk);
      match messages[n]
      case None =>
      case Some(id) =>
        if id !in b.processed && Returns(call, upsertOk(id)) {
          assert (b.processed + {id}) - start == (b.processed - start) + {id};
        }
    }
  }

  /** The set is saved once for every 10 newly stored ids, and each save holds every id counted so far. */
  lemma {:induction false} BatchSaves(start: set<String>, messages: seq<Option<String>>, call: StoreCall, upsertOk: String -> bool)
    ensures var b := RunBatch(start, messages, call, upsertOk);
      |b.saves| == b.count / 10 && forall k :: 0 <= k < |b.saves| ==> b.saves[k] <= b.processed
    decreases |messages|
  {
    if messages != [] {
      var n := |messages| - 1;
      BatchSaves(start, messages[..n], call, upsertOk);
    }
  }

  /** The store is never called for an id that was already processed when the batch began. */
  lemma {:induction false} KnownIdsAreSkipped(start: set<String>, messages: seq<Option<String>>, call: StoreCall, upsertOk: String -> bool)
    ensures var b := RunBatch(start, messages, call, upsertOk);
      forall k :: 0 <= k < |b.calls| ==> b.calls[k] !in start
    decreases |messages|
  {
    if messages != [] {
      var n := |messages| - 1;
      KnownIdsAreSkipped(start, messages[..n], call, upsertOk);
      BatchCounts(start, messages[..n], call, upsertOk);
    }
  }

  /** As written, the store call always raises, so a batch stores nothing and never saves. */
  lemma {:induction false} AsWrittenStoresNothing(start: set<String>, messages: seq<Option<String>>, upsertOk: String -> bool)
    ensures var b := RunBatch(start, messages, AsWrittenCall, upsertOk);
      b.processed == start && b.count == 0 && b.saves == []
    decreases |messages|
  {
    if messages != [] {
      AsWrittenStoresNothing(start, messages[..|messages| - 1], upsertOk);
    }
  }

  /** With the intended call and a working store, every message with an id ends up processed. */
  lemma IntendedStoresEveryId(start: set<String>, messages: seq<Option<String>>, upsertOk: String -> bool)
    requires forall id :: upsertOk(id)
    ensures var b := RunBatch(start, messages, IntendedCall, upsertOk);
      b.processed == start + set i | 0 <= i < |messages| && messages[i].Some? :: messages[i].value
  {
    BatchProcessedExact(start, messages, IntendedCall, upsertOk);
    var b := RunBatch(start, messages, IntendedCall, upsertOk);
    var ids := set i | 0 <= i < |messages| && messages[i].Some? :: messages[i].value;
    forall id | id in start + ids
      ensures id in b.processed
    {
      if id !in start {
        var i :| 0 <= i < |messages| && messages[i].Some? && messages[i].value == id;
        assert messages[i] == Some(id);
      }
    }
  }

  // ---------------------------------------------------------------------------
  // connect

  /** The answer to one connection attempt. */
  datatype Attempt =
    | ServiceFails(error: String)   // get_gmail_service raised
    | ProfileFails(error: String)   // the service was built, the test call raised
    | Connected

  /** Authentication errors are not retried. */
  predicate IsAuthError(message: String) {
    Contains(LowerStr(message), "invalid_grant") || Contains(LowerStr(message), "invalid_credentials")
  }

  /** An attempt that ends the retry loop. */
  predicate Stops(a: Attempt) {
    a.Connected? || IsAuthError(a.error)
  }

  function Pow2(n: nat): (r: nat)
    ensures r >= 1
  {
    if n == 0 then 1 else 2 * Pow2(n - 1)
  }

  /** The first attempt, numbered from `a` up to `maxRetries`, that ends the loop. */
  function FirstStop(outcome: nat -> Attempt, a: nat, maxRetries: int): Option<nat>
    decreases if a > maxRetries then 0 else maxRetries - a + 1
  {
    if a > maxRetries then None
    else if Stops(outcome(a)) then Some(a)
    else FirstStop(outcome, a + 1, maxRetries)
  }

  lemma {:induction false} FirstStopIsFirst(outcome: nat -> Attempt, a: nat, maxRetries: int)
    ensures match FirstStop(outcome, a, maxRetries)
      case Some(s) => a <= s <= maxRetries && Stops(outcome(s)) && forall b :: a <= b < s ==> !Stops(outcome(b))
      case None => forall b :: a <= b <= maxRetries ==> !Stops(outcome(b))
    decreases if a > maxRetries then 0 else maxRetries - a + 1
  {
    if a <= maxRetries && !Stops(outcome(a)) {
      FirstStopIsFirst(outcome, a + 1, maxRetries);
    }
  }

  /** The number of attempts made. */
  function Attempts(outcome: nat -> Attempt, maxRetries: int): nat
  {
    match FirstStop(outcome, 1, maxRetries)
    case Some(s) => s
    case None => if maxRetries > 0 then maxRetries else 0
  }

  const NameErrorOs: String := "NameError: name 'os' is not defined"

  /**
   * What `connect` returns, or the exception it raises. After an authentication error the
   * handler calls `os.path.exists`; when `os` is not imported that raises `NameError`.
   */
  function ConnectResult(outcome: nat -> Attempt, maxRetries: int, osImported: bool): Result<bool, String>
  {
    match FirstStop(outcome, 1, maxRetries)
    case Some(s) =>
      if outcome(s).Connected? then Ok(true)
      else if osImported then Ok(false)
      else Err(NameErrorOs)
    case None => Ok(false)
  }

  /** Whether one of the first `n` attempts got past `get_gmail_service`, which assigns the service. */
  function ServiceBuilt(outcome: nat -> Attempt, n: nat): (r: bool)
  {
    n > 0 && (ServiceBuilt(outcome, n - 1) || !outcome(n).ServiceFails?)
  }

  lemma {:induction false} ServiceBuiltExact(outcome: nat -> Attempt, n: nat)
    ensures ServiceBuilt(outcome, n) <==> exists a :: 1 <= a <= n && !outcome(a).ServiceFails?
  {
    if n > 0 {
      ServiceBuiltExact(outcome, n - 1);
    }
  }

  /** The back-off sleeps before attempts 2, 3, …: 2, 4, 8, … seconds. */
  function Backoff(n: nat): (r: seq<nat>)
    ensures |r| == n
  {
    seq(n, k requires 0 <= k < n => Pow2(k + 1))
  }

  lemma BackoffSnoc(n: nat)
    ensures Backoff(n + 1) == Backoff(n) + [Pow2(n + 1)]
  {
    assert Backoff(n + 1)[..n] == Backoff(n);
  }

  function Sum(xs: seq<nat>): nat
  {
    if xs == [] then 0 else Sum(xs[..|xs| - 1]) + xs[|xs| - 1]
  }

  /** The total back-off before attempt `n + 1` is 2^(n+1) - 2 seconds. */
  lemma {:induction false} BackoffTotal(n: nat)
    ensures Sum(Backoff(n)) == Pow2(n + 1) - 2
  {
    if n > 0 {
      BackoffTotal(n - 1);
      assert Backoff(n)[..n - 1] == Backoff(n - 1);
    }
  }

  /** As written, an authentication error makes `connect` raise instead of returning False. */
  lemma AuthErrorRaisesAsWritten(outcome: nat -> Attempt, maxRetries: int)
    requires maxRetries >= 1 && outcome(1) == ProfileFails("invalid_grant")
    ensures ConnectResult(outcome, maxRetries, false) == Err(NameErrorOs)
    ensures ConnectResult(outcome, maxRetries, true) == Ok(false)
    ensures Attempts(outcome, maxRetries) == 1
  {
    assert LowerStr("invalid_grant") == "invalid_grant";
    assert OccursAt(LowerStr("invalid_grant"), "invalid_grant", 0);
  }

  /** `connect` succeeds exactly when some attempt connects before any authentication error and within the budget. */
  lemma ConnectSucceedsIff(outcome: nat -> Attempt, maxRetries: int, osImported: bool)
    ensures ConnectResult(outcome, maxRetries, osImported) == Ok(true) <==>
      exists s :: 1 <= s <= maxRetries && outcome(s).Connected? && forall b :: 1 <= b < s ==> !Stops(outcome(b))
  {
    FirstStopIsFirst(outcome, 1, maxRetries);
    if exists s :: 1 <= s <= maxRetries && outcome(s).Connected? && forall b :: 1 <= b < s ==> !Stops(outcome(b)) {
      var s :| 1 <= s <= maxRetries && outcome(s).Connected? && forall b :: 1 <= b < s ==> !Stops(outcome(b));
      assert Stops(outcome(s));
      assert FirstStop(outcome, 1, maxRetries) == Some(s);
    }
  }

  // ---------------------------------------------------------------------------
  // The service object

  class IngestionService {
    var email: String
    var processed: set<String>
    var stopped: bool
    /** Whether `self.service` has been assigned. */
    var hasService: bool
    /** The snapshots of `processed` written to the state file, oldest first. */
    var saved: seq<set<String>>

    /** A new service, with the ids read from an existing state file (`None` when it is missing or unreadable). */
    constructor(email: String, stateFile: Option<seq<String>>)
      ensures this.email == email && !stopped && !hasService && saved == []
      ensures forall id :: id in processed <==> stateFile.Some? && id in stateFile.value
    {
      this.email := email;
      processed := if stateFile.Some? then set id | id in stateFile.value else {};
      stopped := false;
      hasService := false;
      saved := [];
    }

    /** `is_running`. */
    function IsRunning(): (r: bool)
      reads this
      ensures r <==> !stopped
    {
      !stopped
    }

    /** `stop`: sets the flag and saves the set. */
    method Stop()
      modifies this
      ensures stopped && !IsRunning()
      ensures processed == old(processed) && saved == old(saved) + [old(processed)]
      ensures email == old(email) && hasService == old(hasService)
    {
      stopped := true;
      saved := saved + [processed];
    }

    /**
     * The loop of `process_new_emails` over the fetched messages, with the store call `call`
     * whose upsert succeeds for the ids `upsertOk` accepts. A stopped service handles no message;
     * the set is saved at every 10th stored message and once more at the end if any was stored.
     */
    method HandleMessages(messages: seq<Option<String>>, call: StoreCall, upsertOk: String -> bool)
      returns (count: nat, calls: seq<String>)
      modifies this
      ensures email == old(email) && stopped == old(stopped) && hasService == old(hasService)
      ensures old(stopped) ==> processed == old(processed) && saved == old(saved) && count == 0 && calls == []
      ensures !old(stopped) ==>
        var b := RunBatch(old(processed), messages, call, upsertOk);
        processed == b.processed && count == b.count && calls == b.calls &&
        saved == old(saved) + b.saves + (if b.count > 0 then [b.processed] else [])
    {
      count := 0;
      calls := [];
      if |messages| == 0 {
        return;
      }
      ghost var start := processed;
      var i := 0;
      while i < |messages|
        invariant 0 <= i <= |messages|
        invariant stopped ==> i == 0
        invariant stopped == old(stopped) && email == old(email) && hasService == old(hasService)
        invariant var b := RunBatch(start, messages[..i], call, upsertOk);
          processed == b.processed && count == b.count && calls == b.calls && saved == old(saved) + b.saves
      {
        if stopped {
          break;
        }
        assert messages[..i + 1][..i] == messages[..i];
        var message := messages[i];
        i := i + 1;
        if message.None? {
          continue;
        }
        var id := message.value;
        if id in processed {
          continue;
        }
        calls := calls + [id];
        if !Returns(call, upsertOk(id)) {
          continue;
        }
        processed := processed + {id};
        count := count + 1;
        if count % 10 == 0 {
          saved := saved + [processed];
        }
      }
      if !stopped {
        assert messages[..i] == messages;
      }
      if count > 0 {
        saved := saved + [processed];
      }
    }

    /** `process_new_emails` as written: its store call omits `doc_id` and `embedding`. */
    method ProcessNewEmails(messages: seq<Option<String>>, upsertOk: String -> bool) returns (count: nat)
      modifies this
      ensures email == old(email) && stopped == old(stopped) && hasService == old(hasService)
      ensures processed == old(processed) && saved == old(saved) && count == 0
    {
      var calls;
      count, calls := HandleMessages(messages, AsWrittenCall, upsertOk);
      if !old(stopped) {
        AsWrittenStoresNothing(old(processed), messages, upsertOk);
      }
    }

    /** `process_new_emails` with the store call given the arguments it requires. */
    method ProcessNewEmailsIntended(messages: seq<Option<String>>, upsertOk: String -> bool) returns (count: nat)
      modifies this
      ensures email == old(email) && stopped == old(stopped) && hasService == old(hasService)
      ensures old(stopped) ==> processed == old(processed) && saved == old(saved) && count == 0
      ensures !old(stopped) ==>
        var b := RunBatch(old(processed), messages, IntendedCall, upsertOk);
        processed == b.processed && count == b.count &&
        saved == old(saved) + b.saves + (if b.count > 0 then [b.processed] else [])
    {
      var calls;
      count, calls := HandleMessages(messages, IntendedCall, upsertOk);
    }

    /**
     * `connect(max_retries)`: attempt `a` gets the answer `outcome(a)`; the service is assigned as
     * soon as `get_gmail_service` returns, even if the test call then fails. `osImported` says
     * whether the module imports `os` (it does not, as written).
     */
    method Connect(outcome: nat -> Attempt, maxRetries: int, osImported: bool)
      returns (r: Result<bool, String>, attempts: nat, sleeps: seq<nat>)
      modifies this`hasService
      ensures r == ConnectResult(outcome, maxRetries, osImported)
      ensures attempts == Attempts(outcome, maxRetries)
      ensures sleeps == Backoff(if attempts == 0 then 0 else attempts - 1)
      ensures hasService == (old(hasService) || ServiceBuilt(outcome, attempts))
      ensures email == old(email) && processed == old(processed) && stopped == old(stopped) && saved == old(saved)
    {
      attempts := 0;
      sleeps := [];
      r := Ok(false);
      if maxRetries < 1 {
        // range(1, max_retries + 1) is empty
        return;
      }
      var a := 1;
      while a <= maxRetries
        invariant 1 <= a && attempts == a - 1
        invariant a <= maxRetries + 1
        invariant FirstStop(outcome, 1, maxRetries) == FirstStop(outcome, a, maxRetries)
        invariant sleeps == Backoff(if a <= maxRetries then a - 1 else a - 2)
        invariant hasService == (old(hasService) || ServiceBuilt(outcome, a - 1))
        invariant r == Ok(false)
      {
        attempts := a;
        var o := outcome(a);
        if !o.ServiceFails? {
          hasService := true;
        }
        if o.Connected? {
          assert FirstStop(outcome, a, maxRetries) == Some(a);
          r := Ok(true);
          break;
        }
        if IsAuthError(o.error) {
          assert FirstStop(outcome, a, maxRetries) == Some(a);
          r := if osImported then Ok(false) else Err(NameErrorOs);
          break;
        }
        assert FirstStop(outcome, a, maxRetries) == FirstStop(outcome, a + 1, maxRetries);
        if a < maxRetries {
          BackoffSnoc(a - 1);
          sleeps := sleeps + [Pow2(a)];
        }
        a := a + 1;
      }
    }
  }
}
