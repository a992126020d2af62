/** The task lifecycle as pure transitions over the collection, seen as a map
    from id to task: submit, dispatch, the due scan, conclude and delete.
    Each handler of the store class is proved to perform exactly one of
    these, and the lemmas below state what the transitions promise. */
module Lifecycle {
  import opened Tasks
  import opened Mail

  /** How the submitter asked for delivery: now, or at a civil date-time
      (already read as milliseconds, as if it were UTC). */
  datatype Schedule = SendNow | At(civil: Instant)

  /** The body of a submit request. A missing field is the empty string. */
  datatype Submission = Submission(
    remetenteNome: string,
    destinatario: string,
    assunto: string,
    mensagem: string,
    dataAgendada: Schedule)

  /** Scheduled times are civil times at the fixed offset -03:00: the UTC
      instant is three hours, 180 minutes, later. */
  const BrasiliaOffsetMinutes: int := 180
  const MsPerMinute: int := 60 * 1000

  function ToUtc(civil: Instant): Instant
  {
    civil + BrasiliaOffsetMinutes * MsPerMinute
  }

  predicate HasRequiredFields(s: Submission)
  {
    s.remetenteNome != "" && s.destinatario != "" && s.assunto != "" && s.mensagem != ""
  }

  /** The record a valid submission inserts. */
  function NewTask(s: Submission, now: Instant): (t: Task)
    ensures WellFormed(t)
    ensures t.remetenteNome == s.remetenteNome && t.destinatario == s.destinatario
    ensures t.assunto == s.assunto && t.mensagem == s.mensagem
    ensures t.criadoEm == now
    ensures s.dataAgendada.SendNow? ==> t.status == Processando && t.dataAgendada == now
    ensures s.dataAgendada.At? ==>
      t.status == Pendente && t.dataAgendada == s.dataAgendada.civil + 180 * 60000
  {
    match s.dataAgendada
    case SendNow =>
      Task(s.remetenteNome, s.destinatario, s.assunto, s.mensagem, now, Processando, now, None, None, None)
    case At(civil) =>
      Task(s.remetenteNome, s.destinatario, s.assunto, s.mensagem, ToUtc(civil), Pendente, now, None, None, None)
  }

  /** The task after its dispatch outcome is recorded. */
  function Delivered(t: Task, o: SendOutcome, now: Instant): (u: Task)
    ensures SameRequest(t, u)
    ensures u.status == (if o.Ok? then Enviado else Erro)
    ensures o.Ok? ==> u.dataEnvio == Some(now) && u.mailgunMessageId == Some(o.messageId) && u.erroMsg == t.erroMsg
    ensures o.Err? ==> u.erroMsg == Some(o.msg) && u.dataEnvio == t.dataEnvio && u.mailgunMessageId == t.mailgunMessageId
    ensures WellFormed(t) && t.status == Processando ==> WellFormed(u)
  {
    match o
    case Ok(messageId) => t.(status := Enviado, dataEnvio := Some(now), mailgunMessageId := Some(messageId))
    case Err(msg) => t.(status := Erro, erroMsg := Some(msg))
  }

  /** Dispatch: one update of one task, by id. */
  function Dispatched(m: map<Id, Task>, id: Id, o: SendOutcome, now: Instant): (m': map<Id, Task>)
    ensures m'.Keys == m.Keys
    ensures forall k :: k in m && k != id ==> m'[k] == m[k]
    ensures id in m ==> m'[id] == Delivered(m[id], o, now)
  {
    if id in m then m[id := Delivered(m[id], o, now)] else m
  }

  /** The scan's first update of a selected task. */
  function Claimed(t: Task): Task
  {
    t.(status := Processando)
  }

  /** The scan's selection: pending and scheduled no later than `agora`. */
  predicate IsDue(t: Task, agora: Instant)
  {
    t.status == Pendente && t.dataAgendada <= agora
  }

  /** The collection after a due scan at `agora`, where `outcomeOf` gives the
      delivery API's answer for each dispatched task. */
  function AfterScan(m: map<Id, Task>, agora: Instant, outcomeOf: Id -> SendOutcome): (m': map<Id, Task>)
    ensures m'.Keys == m.Keys
    ensures forall id :: id in m && IsDue(m[id], agora) ==>
      m'[id] == Delivered(Claimed(m[id]), outcomeOf(id), agora)
    ensures forall id :: id in m && !IsDue(m[id], agora) ==> m'[id] == m[id]
  {
    map id | id in m :: if IsDue(m[id], agora) then Delivered(Claimed(m[id]), outcomeOf(id), agora) else m[id]
  }

  /** The collection part-way through a scan: the tasks in `done` have been
      claimed and dispatched, the others are as they were. */
  function ScannedSoFar(m: map<Id, Task>, agora: Instant, outcomeOf: Id -> SendOutcome, done: set<Id>): map<Id, Task>
  {
    map id | id in m :: if id in done then Delivered(Claimed(m[id]), outcomeOf(id), agora) else m[id]
  }

  /** Claiming and dispatching one more task extends the scan by that task. */
  lemma ScanStep(m: map<Id, Task>, agora: Instant, outcomeOf: Id -> SendOutcome, done: set<Id>, id: Id)
    requires id in m && id !in done
    ensures var so := ScannedSoFar(m, agora, outcomeOf, done);
      so[id := Claimed(m[id])][id := Delivered(Claimed(m[id]), outcomeOf(id), agora)]
        == ScannedSoFar(m, agora, outcomeOf, done + {id})
  {
    var so := ScannedSoFar(m, agora, outcomeOf, done);
    var stepped := so[id := Claimed(m[id])][id := Delivered(Claimed(m[id]), outcomeOf(id), agora)];
    var after := ScannedSoFar(m, agora, outcomeOf, done + {id});
    assert stepped.Keys == after.Keys;
    forall k | k in after ensures stepped[k] == after[k] {
    }
  }

  /** A scan that has done exactly the due tasks is complete. */
  lemma ScanComplete(m: map<Id, Task>, agora: Instant, outcomeOf: Id -> SendOutcome, done: set<Id>)
    requires forall id :: id in m ==> (id in done <==> IsDue(m[id], agora))
    ensures ScannedSoFar(m, agora, outcomeOf, done) == AfterScan(m, agora, outcomeOf)
  {
  }

  /** The scan changes exactly the due tasks, and each of them ends enviado
      or erro; afterwards nothing is due any more. */
  lemma ScanSettlesExactlyTheDue(m: map<Id, Task>, agora: Instant, outcomeOf: Id -> SendOutcome)
    ensures forall id :: id in m ==>
      (AfterScan(m, agora, outcomeOf)[id] != m[id] <==> IsDue(m[id], agora))
    ensures forall id :: id in m && IsDue(m[id], agora) ==>
      AfterScan(m, agora, outcomeOf)[id].status in {Enviado, Erro}
    ensures forall id :: id in m ==> !IsDue(AfterScan(m, agora, outcomeOf)[id], agora)
  {
    var m' := AfterScan(m, agora, outcomeOf);
    forall id | id in m
      ensures m'[id] != m[id] <==> IsDue(m[id], agora)
    {
      if IsDue(m[id], agora) {
        assert m'[id].status != m[id].status;
      }
    }
  }

  lemma ScanPreservesInvariants(m: map<Id, Task>, agora: Instant, outcomeOf: Id -> SendOutcome)
    requires AllWellFormed(m)
    ensures AllWellFormed(AfterScan(m, agora, outcomeOf))
    ensures Evolves(m, AfterScan(m, agora, outcomeOf))
  {
    var m' := AfterScan(m, agora, outcomeOf);
    forall id | id in m'
      ensures WellFormed(m'[id])
      ensures SameRequest(m[id], m'[id]) && Advances(m[id].status, m'[id].status)
    {
      if IsDue(m[id], agora) {
        assert WellFormed(Claimed(m[id]));
      }
    }
  }

  /** The reply to a submit request: it depends on validation only, never on
      the outcome of an immediate dispatch. */
  datatype SubmitReply = MissingFields | Saved

  function SubmitReplyFor(s: Submission): (r: SubmitReply)
    ensures r.MissingFields? <==> !HasRequiredFields(s)
  {
    if HasRequiredFields(s) then Saved else MissingFields
  }

  /** Submit with the store-chosen id `newId`: a request missing a field
      changes nothing; otherwise the new task is inserted, and a send-now
      task is dispatched before the call returns. */
  function AfterSubmit(m: map<Id, Task>, newId: Id, s: Submission, now: Instant, o: SendOutcome): (m': map<Id, Task>)
    requires newId !in m
    ensures !HasRequiredFields(s) ==> m' == m
    ensures HasRequiredFields(s) ==> m'.Keys == m.Keys + {newId}
    ensures forall id :: id in m ==> m'[id] == m[id]
    ensures HasRequiredFields(s) && s.dataAgendada.SendNow? ==>
      m'[newId].status in {Enviado, Erro} && m'[newId].dataAgendada == now
    ensures HasRequiredFields(s) && s.dataAgendada.At? ==>
      m'[newId].status == Pendente && m'[newId].dataAgendada == ToUtc(s.dataAgendada.civil)
    ensures HasRequiredFields(s) ==> SameRequest(m'[newId], NewTask(s, now))
    ensures HasRequiredFields(s) && s.dataAgendada.SendNow? ==> m'[newId] == Delivered(NewTask(s, now), o, now)
    ensures HasRequiredFields(s) && s.dataAgendada.At? ==> m'[newId] == NewTask(s, now)
  {
    if !HasRequiredFields(s) then m
    else
      var inserted := m[newId := NewTask(s, now)];
      if s.dataAgendada.SendNow? then Dispatched(inserted, newId, o, now) else inserted
  }

  lemma SubmitPreservesInvariants(m: map<Id, Task>, newId: Id, s: Submission, now: Instant, o: SendOutcome)
    requires newId !in m && AllWellFormed(m)
    ensures AllWellFormed(AfterSubmit(m, newId, s, now, o))
    ensures Evolves(m, AfterSubmit(m, newId, s, now, o))
  {
  }

  /** A task scheduled for later than the next scan's `agora` is still
      pending after that scan. */
  lemma ScheduledTaskWaits(m: map<Id, Task>, newId: Id, s: Submission, now: Instant, o: SendOutcome,
                           agora: Instant, outcomeOf: Id -> SendOutcome)
    requires newId !in m && HasRequiredFields(s) && s.dataAgendada.At?
    requires agora < ToUtc(s.dataAgendada.civil)
    ensures AfterScan(AfterSubmit(m, newId, s, now, o), agora, outcomeOf)[newId].status == Pendente
  {
  }

  /** The reply of the conclude handler. */
  datatype ConcludeReply =
    | ConcludeInvalidId
    | ConcludeNotFound
    | AlreadyConcluded
    | Concluded(followUp: Option<Message>)

  /** A completed task gets a follow-up mail only if it had been delivered
      and the delivery API gave it a (non-empty) message id. */
  predicate SendsFollowUp(t: Task)
  {
    t.status == Enviado && t.mailgunMessageId.Some? && t.mailgunMessageId.value != ""
  }

  function ConcludeOutcome(m: map<Id, Task>, p: IdParam, origin: string): (r: ConcludeReply)
    ensures r.ConcludeInvalidId? <==> p.MalformedId?
    ensures r.ConcludeNotFound? <==> p.WellFormedId? && p.id !in m
    ensures r.AlreadyConcluded? <==> p.WellFormedId? && p.id in m && m[p.id].status == Concluida
    ensures (r.Concluded? && r.followUp.Some?) <==> p.WellFormedId? && p.id in m && SendsFollowUp(m[p.id])
    ensures r.Concluded? && r.followUp.Some? ==>
      p.WellFormedId? && p.id in m && m[p.id].mailgunMessageId.Some? &&
      r.followUp.value == CompletionMessage(m[p.id], origin)
  {
    match p
    case MalformedId => ConcludeInvalidId
    case WellFormedId(id) =>
      if id !in m then ConcludeNotFound
      else ConcludeFound(m[id], origin)
  }

  /** The reply for a task that exists. */
  function ConcludeFound(t: Task, origin: string): (r: ConcludeReply)
    ensures r.AlreadyConcluded? <==> t.status == Concluida
    ensures (r.Concluded? && r.followUp.Some?) <==> SendsFollowUp(t)
    ensures r.Concluded? && r.followUp.Some? ==>
      t.mailgunMessageId.Some? && r.followUp.value == CompletionMessage(t, origin)
    ensures !r.ConcludeInvalidId? && !r.ConcludeNotFound?
  {
    if t.status == Concluida then AlreadyConcluded
    else if SendsFollowUp(t) then Concluded(Some(CompletionMessage(t, origin)))
    else Concluded(None)
  }

  function AfterConclude(m: map<Id, Task>, p: IdParam): (m': map<Id, Task>)
    ensures m'.Keys == m.Keys
    ensures forall id :: id in m && (p.MalformedId? || id != p.id) ==> m'[id] == m[id]
    ensures p.WellFormedId? && p.id in m ==> m'[p.id] == m[p.id].(status := Concluida)
  {
    match p
    case MalformedId => m
    case WellFormedId(id) =>
      if id !in m || m[id].status == Concluida then m else m[id := m[id].(status := Concluida)]
  }

  /** Concluding twice is concluding once, and the second call never sends
      a follow-up: the follow-up goes out at most once per task. */
  lemma ConcludeIdempotent(m: map<Id, Task>, p: IdParam, origin: string)
    ensures AfterConclude(AfterConclude(m, p), p) == AfterConclude(m, p)
    ensures !ConcludeOutcome(AfterConclude(m, p), p, origin).Concluded?
  {
    var m1 := AfterConclude(m, p);
    var m2 := AfterConclude(m1, p);
    assert m2.Keys == m1.Keys;
    forall id | id in m1 ensures m2[id] == m1[id] {
      if p.WellFormedId? && id == p.id {
        assert m1[id].status == Concluida;
      }
    }
  }

  lemma ConcludePreservesInvariants(m: map<Id, Task>, p: IdParam)
    requires AllWellFormed(m)
    ensures AllWellFormed(AfterConclude(m, p))
    ensures Evolves(m, AfterConclude(m, p))
  {
  }

  /** The reply of the delete handler. */
  datatype DeleteReply = DeleteInvalidId | DeleteNotFound | Deleted

  function DeleteOutcome(m: map<Id, Task>, p: IdParam): (r: DeleteReply)
    ensures r.DeleteInvalidId? <==> p.MalformedId?
    ensures r.Deleted? <==> p.WellFormedId? && p.id in m
  {
    match p
    case MalformedId => DeleteInvalidId
    case WellFormedId(id) => if id in m then Deleted else DeleteNotFound
  }

  function AfterDelete(m: map<Id, Task>, p: IdParam): (m': map<Id, Task>)
    ensures m'.Keys == if p.WellFormedId? then m.Keys - {p.id} else m.Keys
    ensures forall id :: id in m' ==> m'[id] == m[id]
  {
    match p
    case MalformedId => m
    case WellFormedId(id) => m - {id}
  }

  /** After a delete, the id is unknown to both conclude and delete. */
  lemma DeleteThenNotFound(m: map<Id, Task>, id: Id, origin: string)
    ensures ConcludeOutcome(AfterDelete(m, WellFormedId(id)), WellFormedId(id), origin) == ConcludeNotFound
    ensures DeleteOutcome(AfterDelete(m, WellFormedId(id)), WellFormedId(id)) == DeleteNotFound
  {
  }
}
