/** `ProcessSendRequestAsync`: the replay check, the loop over recipients, and the database context both
    write through. Repository inserts report a failure as a result that the caller ignores, so a failed insert
    does not stop the loop; and what was not saved stays in the context, to be saved with the next insert. */
module Orchestrator {
  import opened Counting
  import opened RateLimitKeys
  import opened Topology

  type RequestId = nat

  datatype RecipientItem = RecipientItem(channel: ChannelType, recipient: string)

  datatype Request = Request(id: RequestId, content: string, items: seq<RecipientItem>)

  datatype TaskRow = TaskRow(id: nat, request: RequestId, credential: nat, content: string, recipient: string,
                             channel: ChannelType)

  datatype ChannelError = ChannelError(channel: string, recipient: string, message: string)

  /** A task message on a queue; it carries the same data as the row it was made from. */
  datatype Queued = Queued(queue: string, task: TaskRow)

  datatype System = System(requests: set<RequestId>, tasks: seq<TaskRow>, queued: seq<Queued>)

  datatype Lookup = Found(credential: nat) | NotFound | LookupThrew(message: string)

  datatype Publish = Accepted | PublishThrew(message: string)

  /** What one recipient meets. `saved` says whether the save after its insert succeeds. */
  datatype ItemEnv = ItemEnv(lookup: Lookup, saved: bool, publish: Publish)

  /** `requestReadable` is false if the request vanishes between the existence check and the read. */
  datatype Env = Env(requestReadable: bool, requestSaved: bool, items: seq<ItemEnv>)

  datatype Response = Success(request: RequestId, errors: seq<ChannelError>) | Duplicate

  const NO_CREDENTIAL := "No credentials found for the specified channel"

  // ----- The database context of one call -----

  /** The tables, and the entities added to the context that no save has stored yet. */
  datatype Store = Store(requests: set<RequestId>, tasks: seq<TaskRow>, newRequests: set<RequestId>,
                         newTasks: seq<TaskRow>)

  function Opened(s: System): Store { Store(s.requests, s.tasks, {}, []) }

  /** Rows get the ids after `last`, in the order they were added. */
  function Numbered(rows: seq<TaskRow>, last: nat): seq<TaskRow> {
    seq(|rows|, i requires 0 <= i < |rows| => rows[i].(id := last + i + 1))
  }

  /** One save stores all that is pending or nothing. */
  function Save(s: Store, saved: bool): Store {
    if saved then Store(s.requests + s.newRequests, s.tasks + Numbered(s.newTasks, |s.tasks|), {}, []) else s
  }

  function AddRequest(s: Store, id: RequestId, saved: bool): Store {
    Save(s.(newRequests := s.newRequests + {id}), saved)
  }

  function AddTask(s: Store, row: TaskRow, saved: bool): Store {
    Save(s.(newTasks := s.newTasks + [row]), saved)
  }

  // ----- What becomes of one recipient -----

  datatype Fate = Sent(message: Queued) | Reported(error: ChannelError)

  /** An entity has id 0 until it is saved. */
  function NewTask(request: Request, item: RecipientItem, credential: nat): TaskRow {
    TaskRow(0, request.id, credential, request.content, item.recipient, item.channel)
  }

  predicate Matches(request: Request, env: Env) { |env.items| == |request.items| }

  /** The context once the first n recipients are done. */
  function StoreAfter(s: Store, request: Request, env: Env, n: nat): Store
    requires n <= |request.items| && Matches(request, env)
  {
    if n == 0 then AddRequest(s, request.id, env.requestSaved)
    else
      var before, met := StoreAfter(s, request, env, n - 1), env.items[n - 1];
      if met.lookup.Found?
      then AddTask(before, NewTask(request, request.items[n - 1], met.lookup.credential), met.saved)
      else before
  }

  /** `before` is the context the recipient finds. */
  function ItemFate(before: Store, request: Request, item: RecipientItem, env: ItemEnv): Fate {
    var error := (message: string) => Reported(ChannelError(ChannelName(item.channel), item.recipient, message));
    match env.lookup
    case LookupThrew(message) => error(message)
    case NotFound => error(NO_CREDENTIAL)
    case Found(credential) =>
      if env.publish.PublishThrew? then error(env.publish.message)
      else
        var id := if env.saved then |before.tasks| + |before.newTasks| + 1 else 0;
        Sent(Queued(ChannelQueue(item.channel), NewTask(request, item, credential).(id := id)))
  }

  function FateAt(s: Store, request: Request, env: Env, i: nat): Fate
    requires i < |request.items| && Matches(request, env)
  {
    ItemFate(StoreAfter(s, request, env, i), request, request.items[i], env.items[i])
  }

  function SentBy(s: Store, request: Request, env: Env, n: nat): seq<Queued>
    requires n <= |request.items| && Matches(request, env)
  {
    if n == 0 then []
    else
      var f := FateAt(s, request, env, n - 1);
      SentBy(s, request, env, n - 1) + (if f.Sent? then [f.message] else [])
  }

  function ReportedBy(s: Store, request: Request, env: Env, n: nat): seq<ChannelError>
    requires n <= |request.items| && Matches(request, env)
  {
    if n == 0 then []
    else
      var f := FateAt(s, request, env, n - 1);
      ReportedBy(s, request, env, n - 1) + (if f.Reported? then [f.error] else [])
  }

  function Outcome(s: System, request: Request, env: Env): (Response, System)
    requires Matches(request, env)
  {
    var n, store := |request.items|, Opened(s);
    if request.id in s.requests then (if env.requestReadable then Success(request.id, []) else Duplicate, s)
    else
      var after := StoreAfter(store, request, env, n);
      (Success(request.id, ReportedBy(store, request, env, n)),
       System(after.requests, after.tasks, s.queued + SentBy(store, request, env, n)))
  }

  // ----- The service -----

  /** One instance serves one call; a failed save is only reported in a result nobody reads. */
  class AppDbContext {
    var requests: set<RequestId>
    var tasks: seq<TaskRow>
    var newRequests: set<RequestId>
    var newTasks: seq<TaskRow>

    function Abs(): Store
      reads this
    {
      Store(requests, tasks, newRequests, newTasks)
    }

    /** The tables are shared; nothing is pending in a new context. */
    constructor (requests: set<RequestId>, tasks: seq<TaskRow>)
      ensures Abs() == Store(requests, tasks, {}, [])
    {
      this.requests, this.tasks := requests, tasks;
      newRequests, newTasks := {}, [];
    }

    method SaveChanges(saved: bool)
      modifies this
      ensures Abs() == Save(old(Abs()), saved)
    {
      if saved {
        requests := requests + newRequests;
        for i := 0 to |newTasks|
          invariant requests == old(requests) + newRequests
          invariant newRequests == old(newRequests) && newTasks == old(newTasks)
          invariant tasks == old(tasks) + Numbered(newTasks, |old(tasks)|)[..i]
        {
          tasks := tasks + [newTasks[i].(id := |tasks| + 1)];
        }
        newRequests, newTasks := {}, [];
      }
    }

    method AddMessageRequest(id: RequestId, saved: bool)
      modifies this
      ensures Abs() == AddRequest(old(Abs()), id, saved)
    {
      newRequests := newRequests + {id};
      SaveChanges(saved);
    }

    /** A saved entity gets its id. */
    method AddMessageTask(task: TaskRow, saved: bool) returns (entity: TaskRow)
      modifies this
      ensures Abs() == AddTask(old(Abs()), task, saved)
      ensures entity == if saved then task.(id := |old(tasks)| + |old(newTasks)| + 1) else task
    {
      newTasks := newTasks + [task];
      SaveChanges(saved);
      entity := if saved then tasks[|tasks| - 1] else task;
    }
  }

  class OrchestratorService {
    const context: AppDbContext
    var queued: seq<Queued>

    function Abs(): System
      reads this, context
    {
      System(context.requests, context.tasks, queued)
    }

    constructor (context: AppDbContext)
      ensures this.context == context && queued == []
    {
      this.context, queued := context, [];
    }

    method ProcessSendRequest(request: Request, env: Env) returns (response: Response)
      requires Matches(request, env) && context.newRequests == {} && context.newTasks == []
      modifies this, context
      ensures (response, Abs()) == Outcome(old(Abs()), request, env)
    {
      if request.id in context.requests {
        if env.requestReadable {
          return Success(request.id, []);
        }
        return Duplicate;
      }
      ghost var before := context.Abs();
      context.AddMessageRequest(request.id, env.requestSaved);
      var channelErrors: seq<ChannelError> := [];
      for i := 0 to |request.items|
        invariant context.Abs() == StoreAfter(before, request, env, i)
        invariant queued == old(queued) + SentBy(before, request, env, i)
        invariant channelErrors == ReportedBy(before, request, env, i)
      {
        hide ChannelQueue, ChannelName, Save;
        var recipient, met := request.items[i], env.items[i];
        var caught := "";
        if met.lookup.NotFound? {
          channelErrors :=
            channelErrors + [ChannelError(ChannelName(recipient.channel), recipient.recipient, NO_CREDENTIAL)];
          continue;
        }
        if met.lookup.Found? {
          var task := TaskRow(0, request.id, met.lookup.credential, request.content, recipient.recipient,
                              recipient.channel);
          task := context.AddMessageTask(task, met.saved);
          if met.publish.Accepted? {
            queued := queued + [Queued(ChannelQueue(recipient.channel), task)];
            continue;
          }
          caught := met.publish.message;
        } else {
          caught := met.lookup.message;
        }
        channelErrors := channelErrors + [ChannelError(ChannelName(recipient.channel), recipient.recipient, caught)];
      }
      return Success(request.id, channelErrors);
    }
  }

  // ----- Accounting -----

  /** Recipient i of a first call is accounted for exactly once, in item order: it is the next published
      message or the next channel error. */
  lemma {:induction false} EveryItemIsAccountedOnce(s: Store, request: Request, env: Env, i: nat, n: nat)
    requires i < n <= |request.items| && Matches(request, env)
    ensures |SentBy(s, request, env, n)| + |ReportedBy(s, request, env, n)| == n
    ensures |SentBy(s, request, env, i)| + |ReportedBy(s, request, env, i)| == i
    ensures var p, e := |SentBy(s, request, env, i)|, |ReportedBy(s, request, env, i)|;
            match FateAt(s, request, env, i)
            case Sent(message) => p < |SentBy(s, request, env, n)| && SentBy(s, request, env, n)[p] == message
            case Reported(error) => e < |ReportedBy(s, request, env, n)| && ReportedBy(s, request, env, n)[e] == error
    decreases n
  {
    hide ItemFate, StoreAfter;
    if i < n - 1 {
      EveryItemIsAccountedOnce(s, request, env, i, n - 1);
    } else if i > 0 {
      EveryItemIsAccountedOnce(s, request, env, i - 1, i);
    } else {
    }
  }

  /** Rows are only ever appended, and row k has id k + 1. */
  ghost predicate IdsCount(tasks: seq<TaskRow>) { forall k :: 0 <= k < |tasks| ==> tasks[k].id == k + 1 }

  lemma {:induction false} TasksGrow(s: Store, request: Request, env: Env, i: nat, n: nat)
    requires i <= n <= |request.items| && Matches(request, env) && IdsCount(s.tasks)
    ensures StoreAfter(s, request, env, i).tasks <= StoreAfter(s, request, env, n).tasks
    ensures IdsCount(StoreAfter(s, request, env, n).tasks)
    decreases n
  {
    if n == 0 {
    } else if i < n {
      TasksGrow(s, request, env, i, n - 1);
    } else {
      TasksGrow(s, request, env, n - 1, n - 1);
    }
  }

  /** A published message refers to a stored row with the same data exactly when the save of its own task
      succeeded. Otherwise it carries id 0, although a later save of the call may still store the row, and the
      worker that receives it finds no task. */
  lemma PublishedTaskHasRowIff(s: Store, request: Request, env: Env, i: nat)
    requires i < |request.items| && Matches(request, env) && IdsCount(s.tasks)
    requires FateAt(s, request, env, i).Sent?
    ensures var task := FateAt(s, request, env, i).message.task;
            && (task in StoreAfter(s, request, env, |request.items|).tasks <==> env.items[i].saved)
            && (!env.items[i].saved <==> task.id == 0)
  {
    hide ChannelQueue, ChannelName;
    TasksGrow(s, request, env, i + 1, |request.items|);
    var before, after := StoreAfter(s, request, env, i), StoreAfter(s, request, env, i + 1);
    if env.items[i].saved {
      assert after.tasks[|before.tasks| + |before.newTasks|] == FateAt(s, request, env, i).message.task;
    }
  }

  // ----- What a call answers and publishes -----

  predicate IsReached(met: ItemEnv) { met.lookup.Found? && met.publish.Accepted? }

  /** The recipients among the first n whose message was published, or was not, in item order. */
  function Recipients(env: Env, reached: bool, n: nat): (picked: seq<nat>)
    requires n <= |env.items|
    ensures forall k :: 0 <= k < |picked| ==> picked[k] < n && IsReached(env.items[picked[k]]) == reached
  {
    if n == 0 then []
    else Recipients(env, reached, n - 1) + (if IsReached(env.items[n - 1]) == reached then [n - 1] else [])
  }

  /** The message is a task for this recipient of the request, on the queue of its channel. */
  predicate IsTaskFor(message: Queued, request: Request, item: RecipientItem, met: ItemEnv) {
    && met.lookup.Found?
    && message.queue == "messages." + ChannelName(item.channel)
    && message.task.request == request.id && message.task.content == request.content
    && message.task.credential == met.lookup.credential
    && message.task.channel == item.channel && message.task.recipient == item.recipient
  }

  /** The error names the recipient and what went wrong for it first. */
  predicate IsErrorFor(error: ChannelError, item: RecipientItem, met: ItemEnv) {
    && error.channel == ChannelName(item.channel) && error.recipient == item.recipient
    && match met.lookup
       case LookupThrew(message) => error.message == message
       case NotFound => error.message == "No credentials found for the specified channel"
       case Found(_) => met.publish.PublishThrew? && error.message == met.publish.message
  }

  lemma FateOfRecipient(before: Store, request: Request, item: RecipientItem, met: ItemEnv)
    ensures match ItemFate(before, request, item, met)
            case Sent(message) => IsReached(met) && IsTaskFor(message, request, item, met)
            case Reported(error) => !IsReached(met) && IsErrorFor(error, item, met)
  {
    hide ChannelName;
  }

  lemma {:induction false} MessagesAndErrors(s: Store, request: Request, env: Env, n: nat)
    requires n <= |request.items| && Matches(request, env)
    ensures var sent, reached := SentBy(s, request, env, n), Recipients(env, true, n);
            && |sent| == |reached|
            && forall k :: 0 <= k < |sent| ==>
                 IsTaskFor(sent[k], request, request.items[reached[k]], env.items[reached[k]])
    ensures var errors, missed := ReportedBy(s, request, env, n), Recipients(env, false, n);
            && |errors| == |missed|
            && forall k :: 0 <= k < |errors| ==> IsErrorFor(errors[k], request.items[missed[k]], env.items[missed[k]])
  {
    hide IsTaskFor, IsErrorFor, ItemFate, StoreAfter, IsReached;
    if n == 0 {
    } else {
      MessagesAndErrors(s, request, env, n - 1);
      FateOfRecipient(StoreAfter(s, request, env, n - 1), request, request.items[n - 1], env.items[n - 1]);
    }
  }

  /** A first call publishes, in item order, one task for every recipient it reached, each on the queue of the
      recipient's channel, and answers with success and one error for every recipient it did not reach. */
  lemma FirstCallReachesRecipients(s: System, request: Request, env: Env)
    requires Matches(request, env) && request.id !in s.requests
    ensures var n, (response, after) := |request.items|, Outcome(s, request, env);
            var reached, missed := Recipients(env, true, n), Recipients(env, false, n);
            && |after.queued| == |s.queued| + |reached| && s.queued <= after.queued
            && (forall k :: 0 <= k < |reached| ==>
                  IsTaskFor(after.queued[|s.queued| + k], request, request.items[reached[k]], env.items[reached[k]]))
            && response.Success? && response.request == request.id && |response.errors| == |missed|
            && (forall k :: 0 <= k < |missed| ==>
                  IsErrorFor(response.errors[k], request.items[missed[k]], env.items[missed[k]]))
  {
    hide IsTaskFor, IsErrorFor, SentBy, ReportedBy, StoreAfter, Recipients;
    MessagesAndErrors(Opened(s), request, env, |request.items|);
  }

  /** A replayed call changes nothing and reports no errors, only a duplicate if the request cannot be read. */
  lemma ReplayAnswersOnly(s: System, request: Request, env: Env)
    requires Matches(request, env) && request.id in s.requests
    ensures var (response, after) := Outcome(s, request, env);
            && after == s
            && (response.Success? <==> env.requestReadable)
            && (response.Success? ==> response.request == request.id && response.errors == [])
  {
  }

  /** How many of the first n recipients got a task, published or not. */
  function TasksMade(env: Env, n: nat): nat
    requires n <= |env.items|
  {
    if n == 0 then 0 else TasksMade(env, n - 1) + (if env.items[n - 1].lookup.Found? then 1 else 0)
  }

  /** Task number k of the call's context, stored or pending. */
  function TaskOf(s: Store, k: nat): TaskRow
    requires k < |s.tasks| + |s.newTasks|
  {
    if k < |s.tasks| then s.tasks[k] else s.newTasks[k - |s.tasks|]
  }

  /** Every recipient with a credential gets exactly one row, in item order, whether its own save succeeds or a
      later one of the call; until then it is pending. */
  lemma {:induction false} RowsOfCall(s: Store, request: Request, env: Env, i: nat, n: nat)
    requires i < n <= |request.items| && Matches(request, env) && env.items[i].lookup.Found?
    ensures var after, k := StoreAfter(s, request, env, n), |s.tasks| + |s.newTasks| + TasksMade(env, i);
            && |after.tasks| + |after.newTasks| == |s.tasks| + |s.newTasks| + TasksMade(env, n)
            && k < |after.tasks| + |after.newTasks|
            && TaskOf(after, k).(id := 0) == TaskRow(0, request.id, env.items[i].lookup.credential, request.content,
                                                     request.items[i].recipient, request.items[i].channel)
    decreases n
  {
    var k := |s.tasks| + |s.newTasks| + TasksMade(env, i);
    TasksAreCounted(s, request, env, n - 1);
    TasksAreCounted(s, request, env, n);
    if i < n - 1 {
      RowsOfCall(s, request, env, i, n - 1);
      TasksStay(s, request, env, n - 1, k);
    } else {
    }
  }

  lemma {:induction false} TasksAreCounted(s: Store, request: Request, env: Env, n: nat)
    requires n <= |request.items| && Matches(request, env)
    ensures var after := StoreAfter(s, request, env, n);
            |after.tasks| + |after.newTasks| == |s.tasks| + |s.newTasks| + TasksMade(env, n)
  {
    if n == 0 {
    } else {
      TasksAreCounted(s, request, env, n - 1);
    }
  }

  /** A save only gives tasks their ids. */
  lemma TasksStay(s: Store, request: Request, env: Env, n: nat, k: nat)
    requires n < |request.items| && Matches(request, env)
    requires var before := StoreAfter(s, request, env, n); k < |before.tasks| + |before.newTasks|
    ensures var before, after := StoreAfter(s, request, env, n), StoreAfter(s, request, env, n + 1);
            && k < |after.tasks| + |after.newTasks|
            && TaskOf(after, k).(id := 0) == TaskOf(before, k).(id := 0)
  {
  }

  // ----- Which request is on record -----

  /** Some save of the call succeeded. */
  predicate AnySave(env: Env, n: nat)
    requires n <= |env.items|
  {
    env.requestSaved || exists i :: 0 <= i < n && env.items[i].lookup.Found? && env.items[i].saved
  }

  predicate LeavesRecord(env: Env) { AnySave(env, |env.items|) }

  /** The request is stored by the first save of the call that succeeds, be it its own or that of a task. */
  lemma {:induction false} RecordedBySomeSave(s: Store, request: Request, env: Env, n: nat)
    requires n <= |request.items| && Matches(request, env) && s.newRequests == {} && s.newTasks == []
    ensures var after := StoreAfter(s, request, env, n);
            if AnySave(env, n) then after.requests == s.requests + {request.id} && after.newRequests == {}
            else after.requests == s.requests && after.newRequests == {request.id} && after.tasks == s.tasks
  {
    if n == 0 {
    } else {
      RecordedBySomeSave(s, request, env, n - 1);
      assert AnySave(env, n) <==>
             AnySave(env, n - 1) || (env.items[n - 1].lookup.Found? && env.items[n - 1].saved);
    }
  }

  /** If every save of a call fails unnoticed, it published its messages all the same and left no trace: a
      repeated call publishes again, twice to every recipient if nothing else fails. */
  lemma LostRecordPublishesAgain(s: System, request: Request, env: Env, env2: Env)
    requires Matches(request, env) && Matches(request, env2) && request.id !in s.requests && !LeavesRecord(env)
    ensures var n, s1 := |request.items|, Outcome(s, request, env).1;
            && s1.requests == s.requests && s1.tasks == s.tasks
            && s1.queued == s.queued + SentBy(Opened(s), request, env, n)
            && Outcome(s1, request, env2).1.queued == s1.queued + SentBy(Opened(s), request, env2, n)
            && (AllSent(env) && AllSent(env2) ==> |Outcome(s1, request, env2).1.queued| == |s.queued| + 2 * n)
  {
    hide StoreAfter, SentBy, ReportedBy;
    var n := |request.items|;
    RecordedBySomeSave(Opened(s), request, env, n);
    if AllSent(env) && AllSent(env2) {
      SendsToAll(Opened(s), request, env, n);
      SendsToAll(Opened(s), request, env2, n);
    }
  }

  predicate AllSent(env: Env) { forall m :: m in env.items ==> m.lookup.Found? && m.publish.Accepted? }

  lemma {:induction false} SendsToAll(s: Store, request: Request, env: Env, n: nat)
    requires n <= |request.items| && Matches(request, env) && AllSent(env)
    ensures |SentBy(s, request, env, n)| == n
  {
    hide StoreAfter, ChannelQueue;
    if n == 0 {
    } else {
      SendsToAll(s, request, env, n - 1);
      assert env.items[n - 1] in env.items;
    }
  }

  // ----- Runs of calls -----

  datatype Call = Call(request: Request, env: Env)

  predicate AllMatch(calls: seq<Call>) { forall c :: c in calls ==> Matches(c.request, c.env) }

  /** The system after the first n calls, one after the other. */
  function After(s: System, calls: seq<Call>, n: nat): System
    requires n <= |calls| && AllMatch(calls)
  {
    if n == 0 then s
    else
      var c := calls[n - 1];
      assert c in calls;
      Outcome(After(s, calls, n - 1), c.request, c.env).1
  }

  /** Call j is for this id and gets past the replay check. */
  predicate Enters(s: System, calls: seq<Call>, id: RequestId, j: nat)
    requires j < |calls| && AllMatch(calls)
  {
    calls[j].request.id == id && id !in After(s, calls, j).requests
  }

  function Entries(s: System, calls: seq<Call>, id: RequestId, n: nat): nat
    requires n <= |calls| && AllMatch(calls)
  {
    if n == 0 then 0 else Entries(s, calls, id, n - 1) + (if Enters(s, calls, id, n - 1) then 1 else 0)
  }

  /** The calls that got past the check and of which no save succeeded. */
  function LostRecords(s: System, calls: seq<Call>, id: RequestId, n: nat): nat
    requires n <= |calls| && AllMatch(calls)
  {
    if n == 0 then 0
    else
      LostRecords(s, calls, id, n - 1)
      + (if Enters(s, calls, id, n - 1) && !LeavesRecord(calls[n - 1].env) then 1 else 0)
  }

  /** The calls that got past the check and whose own request insert failed. */
  function FailedRequestInserts(s: System, calls: seq<Call>, id: RequestId, n: nat): nat
    requires n <= |calls| && AllMatch(calls)
  {
    if n == 0 then 0
    else
      FailedRequestInserts(s, calls, id, n - 1)
      + (if Enters(s, calls, id, n - 1) && !calls[n - 1].env.requestSaved then 1 else 0)
  }

  /** What a call does to the requests on record. */
  lemma RecordAfterCall(s: System, c: Call)
    requires Matches(c.request, c.env)
    ensures Outcome(s, c.request, c.env).1.requests
         == if LeavesRecord(c.env) then s.requests + {c.request.id} else s.requests
  {
    hide StoreAfter, SentBy, ReportedBy;
    if c.request.id !in s.requests {
      RecordedBySomeSave(Opened(s), c.request, c.env, |c.request.items|);
    }
  }

  /** The replay check, exactly: the calls with one id that get past it are those that left no record, plus
      one if one of them did. So they are at most one more than its failed request inserts. */
  lemma {:induction false} EntriesAreCounted(s: System, calls: seq<Call>, id: RequestId, n: nat)
    requires n <= |calls| && AllMatch(calls)
    ensures Entries(s, calls, id, n)
         == LostRecords(s, calls, id, n)
            + (if id in After(s, calls, n).requests && id !in s.requests then 1 else 0)
    ensures LostRecords(s, calls, id, n) <= FailedRequestInserts(s, calls, id, n)
    ensures Entries(s, calls, id, n) <= 1 + FailedRequestInserts(s, calls, id, n)
    ensures s.requests <= After(s, calls, n).requests
  {
    hide Outcome;
    if n == 0 {
    } else {
      EntriesAreCounted(s, calls, id, n - 1);
      assert calls[n - 1] in calls;
      RecordAfterCall(After(s, calls, n - 1), calls[n - 1]);
    }
  }

  // ----- What belongs to one request -----

  function RowOf(id: RequestId): TaskRow -> bool { (row: TaskRow) => row.request == id }

  function MessageOf(id: RequestId): Queued -> bool { (q: Queued) => q.task.request == id }

  lemma {:induction false} RowsAreOwn(s: Store, request: Request, env: Env, n: nat)
    requires n <= |request.items| && Matches(request, env) && s.newTasks == []
    ensures var after := StoreAfter(s, request, env, n);
            && s.tasks <= after.tasks
            && (forall row :: row in after.tasks[|s.tasks|..] ==> row.request == request.id)
            && (forall row :: row in after.newTasks ==> row.request == request.id)
  {
    if n == 0 {
    } else {
      RowsAreOwn(s, request, env, n - 1);
      var before, met := StoreAfter(s, request, env, n - 1), env.items[n - 1];
      if met.lookup.Found? {
        var rows := before.newTasks + [NewTask(request, request.items[n - 1], met.lookup.credential)];
        var more := Numbered(rows, |before.tasks|);
        forall row | row in more ensures row.request == request.id {
          var k :| 0 <= k < |more| && more[k] == row;
          assert rows[k] in rows;
        }
        assert (before.tasks + more)[|s.tasks|..] == before.tasks[|s.tasks|..] + more;
      }
    }
  }

  lemma {:induction false} MessagesAreOwn(s: Store, request: Request, env: Env, n: nat)
    requires n <= |request.items| && Matches(request, env)
    ensures forall q :: q in SentBy(s, request, env, n) ==> q.task.request == request.id
  {
    hide StoreAfter, ChannelQueue;
    if n == 0 {
    } else {
      MessagesAreOwn(s, request, env, n - 1);
    }
  }

  /** A call for another request leaves what belongs to this one as it was. */
  lemma OtherCallsKeep(s: System, c: Call, id: RequestId)
    requires Matches(c.request, c.env) && c.request.id != id
    ensures var after := Outcome(s, c.request, c.env).1;
            && Select(after.tasks, RowOf(id)) == Select(s.tasks, RowOf(id))
            && Select(after.queued, MessageOf(id)) == Select(s.queued, MessageOf(id))
  {
    hide StoreAfter, SentBy, ReportedBy, Select;
    var n, store := |c.request.items|, Opened(s);
    RowsAreOwn(store, c.request, c.env, n);
    MessagesAreOwn(store, c.request, c.env, n);
    var rows, sent := StoreAfter(store, c.request, c.env, n).tasks, SentBy(store, c.request, c.env, n);
    assert rows == s.tasks + rows[|s.tasks|..];
    SelectConcat(s.tasks, rows[|s.tasks|..], RowOf(id));
    SelectNone(rows[|s.tasks|..], RowOf(id));
    SelectConcat(s.queued, sent, MessageOf(id));
    SelectNone(sent, MessageOf(id));
  }

  /** Idempotence over runs: from the first call that leaves a record on, whatever else is called, no call with
      this id gets past the check, and its rows and messages stay as they are. */
  lemma {:induction false} RecordedRequestIsSettled(s: System, calls: seq<Call>, id: RequestId, k: nat, n: nat)
    requires k <= n <= |calls| && AllMatch(calls) && id in After(s, calls, k).requests
    ensures id in After(s, calls, n).requests && Entries(s, calls, id, n) == Entries(s, calls, id, k)
    ensures Select(After(s, calls, n).tasks, RowOf(id)) == Select(After(s, calls, k).tasks, RowOf(id))
    ensures Select(After(s, calls, n).queued, MessageOf(id)) == Select(After(s, calls, k).queued, MessageOf(id))
    decreases n - k
  {
    if k == n {
    } else {
      RecordedRequestIsSettled(s, calls, id, k, n - 1);
      assert calls[n - 1] in calls;
      var c, before := calls[n - 1], After(s, calls, n - 1);
      hide StoreAfter, SentBy, ReportedBy, Select, LeavesRecord;
      RecordAfterCall(before, c);
      if c.request.id != id {
        OtherCallsKeep(before, c, id);
      }
    }
  }

  // ----- How often a recipient gets a message -----

  function MessageFor(id: RequestId, item: RecipientItem): Queued -> bool {
    (q: Queued) => q.task.request == id && q.task.channel == item.channel && q.task.recipient == item.recipient
  }

  function Is(item: RecipientItem): RecipientItem -> bool { (other: RecipientItem) => other == item }

  lemma SentIsForItem(s: Store, request: Request, env: Env, i: nat)
    requires i < |request.items| && Matches(request, env) && FateAt(s, request, env, i).Sent?
    ensures var message := FateAt(s, request, env, i).message;
            forall item :: MessageFor(request.id, item)(message) <==> Is(item)(request.items[i])
  {
    hide StoreAfter, ChannelQueue, ChannelName;
  }

  /** One call publishes for a recipient at most as often as the request names it. */
  lemma {:induction false} SentOncePerMention(s: Store, request: Request, env: Env, item: RecipientItem, n: nat)
    requires n <= |request.items| && Matches(request, env)
    ensures |Select(SentBy(s, request, env, n), MessageFor(request.id, item))|
         <= |Select(request.items[..n], Is(item))|
  {
    hide FateAt;
    if n == 0 {
    } else {
      SentOncePerMention(s, request, env, item, n - 1);
      assert request.items[..n] == request.items[..n - 1] + [request.items[n - 1]];
      SelectAppend(request.items[..n - 1], request.items[n - 1], Is(item));
      var f := FateAt(s, request, env, n - 1);
      if f.Sent? {
        SentIsForItem(s, request, env, n - 1);
        SelectAppend(SentBy(s, request, env, n - 1), f.message, MessageFor(request.id, item));
      } else {
        assert SentBy(s, request, env, n) == SentBy(s, request, env, n - 1);
      }
    }
  }

  lemma SentPerCall(s: System, c: Call, id: RequestId, item: RecipientItem)
    requires Matches(c.request, c.env)
    ensures var added := if c.request.id == id && id !in s.requests then |Select(c.request.items, Is(item))| else 0;
            |Select(Outcome(s, c.request, c.env).1.queued, MessageFor(id, item))|
            <= |Select(s.queued, MessageFor(id, item))| + added
  {
    hide StoreAfter, SentBy, ReportedBy, Select;
    var n, store := |c.request.items|, Opened(s);
    var sent := SentBy(store, c.request, c.env, n);
    SelectConcat(s.queued, sent, MessageFor(id, item));
    if c.request.id == id {
      SentOncePerMention(store, c.request, c.env, item, n);
      assert c.request.items[..n] == c.request.items;
    } else {
      MessagesAreOwn(store, c.request, c.env, n);
      SelectNone(sent, MessageFor(id, item));
    }
  }

  /** All calls with this id repeat one request. */
  predicate Repeats(calls: seq<Call>, id: RequestId, items: seq<RecipientItem>) {
    forall c :: c in calls && c.request.id == id ==> c.request.items == items
  }

  /** A repeated request: the messages for one recipient are at most its mentions in the request, times one
      more than the calls of that request that left no record. */
  lemma {:induction false} RepeatedRequestIsBounded(s: System, calls: seq<Call>, id: RequestId,
                                                    items: seq<RecipientItem>, item: RecipientItem, n: nat)
    requires n <= |calls| && AllMatch(calls) && Repeats(calls, id, items)
    ensures |Select(After(s, calls, n).queued, MessageFor(id, item))|
         <= |Select(s.queued, MessageFor(id, item))|
            + |Select(items, Is(item))| * (1 + LostRecords(s, calls, id, n))
  {
    EntriesAreCounted(s, calls, id, n);
    SentPerEntry(s, calls, id, items, item, n);
    MulGrows(|Select(items, Is(item))|, Entries(s, calls, id, n), 1 + LostRecords(s, calls, id, n));
  }

  lemma MulGrows(a: nat, x: nat, y: nat)
    requires x <= y
    ensures a * x <= a * y
  {
  }

  lemma {:induction false} SentPerEntry(s: System, calls: seq<Call>, id: RequestId,
                                        items: seq<RecipientItem>, item: RecipientItem, n: nat)
    requires n <= |calls| && AllMatch(calls) && Repeats(calls, id, items)
    ensures |Select(After(s, calls, n).queued, MessageFor(id, item))|
         <= |Select(s.queued, MessageFor(id, item))| + |Select(items, Is(item))| * Entries(s, calls, id, n)
  {
    hide Outcome, Select;
    if n == 0 {
    } else {
      SentPerEntry(s, calls, id, items, item, n - 1);
      assert calls[n - 1] in calls;
      SentPerCall(After(s, calls, n - 1), calls[n - 1], id, item);
      var mentions, entries := |Select(items, Is(item))|, Entries(s, calls, id, n - 1);
      assert mentions * (entries + 1) == mentions * entries + mentions;
    }
  }
}
