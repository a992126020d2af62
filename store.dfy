/** The request handlers over the shared collection. The collection is a
    map from id to task that the handlers update in place; each handler is
    proved to leave exactly the collection its Lifecycle transition gives,
    and to keep the collection's invariant. */
module Store {
  import opened Tasks
  import opened Mail
  import opened Lifecycle
  import opened History

  /** Marking the snapshot's next record as done keeps every earlier one
      done and leaves every later one (a larger id) not done. */
  lemma SeenOneMore(pending: seq<Record>, done: set<Id>, i: nat)
    requires i < |pending| && IdsIncreasing(pending)
    requires forall k :: 0 <= k < i ==> pending[k].id in done
    requires forall k :: i <= k < |pending| ==> pending[k].id !in done
    ensures forall k :: 0 <= k < i + 1 ==> pending[k].id in done + {pending[i].id}
    ensures forall k :: i + 1 <= k < |pending| ==> pending[k].id !in done + {pending[i].id}
  {
  }

  class TaskStore {
    /** The "agendamentos" collection. */
    var tasks: map<Id, Task>
    /** The next id the store hands out; every stored id is below it. */
    var nextId: Id
    /** The configured sender address of every mail. */
    const origin: string

    ghost predicate Valid()
      reads this
    {
      (forall id :: id in tasks ==> id < nextId) && AllWellFormed(tasks)
    }

    constructor (origin: string)
      ensures Valid() && tasks == map[] && nextId == 0 && this.origin == origin
    {
      tasks := map[];
      nextId := 0;
      this.origin := origin;
    }

    /** Sends the task's mail and records the delivery API's answer `o` on
        the task: enviado with the send time and message id, or erro with
        the error text. Returns the mail handed to the API. */
    method Dispatch(id: Id, o: SendOutcome, now: Instant) returns (msg: Message)
      requires Valid() && id in tasks && tasks[id].status == Processando
      modifies this`tasks
      ensures Valid()
      ensures msg == DispatchMessage(old(tasks)[id], origin)
      ensures tasks == Dispatched(old(tasks), id, o, now)
    {
      var t := tasks[id];
      msg := DispatchMessage(t, origin);
      tasks := tasks[id := Delivered(t, o, now)];
    }

    /** The submit handler: rejects a request missing a required field;
        otherwise inserts the task and, for a send-now request, dispatches
        it before replying. `o` is the delivery API's answer to that
        dispatch. */
    method Submit(s: Submission, now: Instant, o: SendOutcome) returns (reply: SubmitReply)
      requires Valid()
      modifies this
      ensures Valid()
      ensures reply == SubmitReplyFor(s)
      ensures nextId == if HasRequiredFields(s) then old(nextId) + 1 else old(nextId)
      ensures tasks == AfterSubmit(old(tasks), old(nextId), s, now, o)
    {
      if !HasRequiredFields(s) {
        return MissingFields;
      }
      var id := nextId;
      tasks := tasks[id := NewTask(s, now)];
      nextId := nextId + 1;
      if s.dataAgendada.SendNow? {
        var _ := Dispatch(id, o, now);
      }
      reply := Saved;
    }

    /** The due scan: takes a snapshot of the pending tasks scheduled no
        later than `agora`, then claims and dispatches each in turn;
        `outcomeOf` gives the delivery API's answer per task. */
    method RunDueScan(agora: Instant, outcomeOf: Id -> SendOutcome)
      requires Valid()
      modifies this`tasks
      ensures Valid()
      ensures tasks == AfterScan(old(tasks), agora, outcomeOf)
    {
      var pending := DueSnapshot(Collection(tasks, nextId), agora);
      ghost var before := tasks;
      ghost var done: set<Id> := {};
      assert forall k :: 0 <= k < |pending| ==>
        pending[k].id in before && pending[k].task == before[pending[k].id] && IsDue(pending[k].task, agora);
      for i := 0 to |pending|
        invariant tasks == ScannedSoFar(before, agora, outcomeOf, done)
        invariant forall id :: id in done ==> id in before && IsDue(before[id], agora)
        invariant forall k :: 0 <= k < i ==> pending[k].id in done
        invariant forall k :: i <= k < |pending| ==> pending[k].id !in done
        invariant Valid()
      {
        var id := pending[i].id;
        assert tasks[id] == before[id];
        ClaimAndDispatch(id, outcomeOf(id), agora);
        ScanStep(before, agora, outcomeOf, done, id);
        SeenOneMore(pending, done, i);
        done := done + {id};
      }
      forall id | id in before && IsDue(before[id], agora) ensures id in done {
        assert Record(id, before[id]) in pending;
      }
      ScanComplete(before, agora, outcomeOf, done);
    }

    /** One round of the scan: mark the pending task processando, then
        dispatch it. */
    method ClaimAndDispatch(id: Id, o: SendOutcome, agora: Instant)
      requires Valid() && id in tasks && tasks[id].status == Pendente
      modifies this`tasks
      ensures Valid()
      ensures tasks == old(tasks)[id := Claimed(old(tasks)[id])][id := Delivered(Claimed(old(tasks)[id]), o, agora)]
    {
      tasks := tasks[id := Claimed(tasks[id])];
      ghost var afterClaim := tasks;
      var _ := Dispatch(id, o, agora);
      assert tasks == afterClaim[id := Delivered(afterClaim[id], o, agora)];
    }

    /** The conclude handler: marks the task concluida unless it already is.
        The reply carries the follow-up mail when one is sent; the delivery
        API's answer to it changes nothing. */
    method Conclude(p: IdParam) returns (reply: ConcludeReply)
      requires Valid()
      modifies this`tasks
      ensures Valid()
      ensures reply == ConcludeOutcome(old(tasks), p, origin)
      ensures tasks == AfterConclude(old(tasks), p)
    {
      if p.MalformedId? {
        return ConcludeInvalidId;
      }
      var id := p.id;
      if id !in tasks {
        return ConcludeNotFound;
      }
      var tarefa := tasks[id];
      if tarefa.status == Concluida {
        return AlreadyConcluded;
      }
      tasks := tasks[id := tarefa.(status := Concluida)];
      if tarefa.mailgunMessageId.Some? && tarefa.mailgunMessageId.value != "" && tarefa.status == Enviado {
        reply := Concluded(Some(CompletionMessage(tarefa, origin)));
      } else {
        reply := Concluded(None);
      }
    }

    /** The delete handler: removes the one task with the given id. */
    method Delete(p: IdParam) returns (reply: DeleteReply)
      requires Valid()
      modifies this`tasks
      ensures Valid()
      ensures reply == DeleteOutcome(old(tasks), p)
      ensures tasks == AfterDelete(old(tasks), p)
    {
      if p.MalformedId? {
        return DeleteInvalidId;
      }
      if p.id in tasks {
        tasks := tasks - {p.id};
        reply := Deleted;
      } else {
        reply := DeleteNotFound;
      }
    }

    /** The history handler: reads the collection and answers the listing
        for `q`. */
    method ListHistory(q: Query) returns (r: seq<Record>)
      requires Valid()
      ensures r == Listing(Collection(tasks, nextId), q)
      ensures forall x :: x in r ==> x.id in tasks && x.task == tasks[x.id] && Matches(x.task, q)
    {
      var c := Collection(tasks, nextId);
      ListingSelectsFirstMatches(c, q);
      r := Listing(c, q);
    }
  }
}
