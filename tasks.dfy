/** The task record of the "agendamentos" collection and the lifecycle its
    status field follows. */
module Tasks {

  datatype Option<+T> = None | Some(value: T)

  /** Store-assigned task identifier (the collection's `_id`). */
  type Id = nat

  /** An instant, in milliseconds since the Unix epoch (UTC). */
  type Instant = int

  /** The `status` field of a task. */
  datatype Status = Pendente | Processando | Enviado | Erro | Concluida

  /** The string the store holds in `status`; history queries compare against it. */
  function StatusName(s: Status): string
  {
    match s
    case Pendente => "pendente"
    case Processando => "processando"
    case Enviado => "enviado"
    case Erro => "erro"
    case Concluida => "concluida"
  }

  lemma StatusNameInjective(a: Status, b: Status)
    ensures StatusName(a) == StatusName(b) <==> a == b
  {
  }

  /** One stored email task. `dataEnvio`, `mailgunMessageId` and `erroMsg`
      are absent until a dispatch outcome sets them. */
  datatype Task = Task(
    remetenteNome: string,
    destinatario: string,
    assunto: string,
    mensagem: string,
    dataAgendada: Instant,
    status: Status,
    criadoEm: Instant,
    dataEnvio: Option<Instant>,
    mailgunMessageId: Option<string>,
    erroMsg: Option<string>)

  /** What the delivery API answered to one send request. */
  datatype SendOutcome = Ok(messageId: string) | Err(msg: string)

  /** The `:id` route parameter: either a well-formed object id or a string
      that fails the object-id syntax check. */
  datatype IdParam = WellFormedId(id: Id) | MalformedId

  /** Which optional fields a task carries in each status. A completed task
      may come from any earlier status, so it carries whatever it had. */
  predicate WellFormed(t: Task)
  {
    match t.status
    case Pendente => t.dataEnvio.None? && t.mailgunMessageId.None? && t.erroMsg.None?
    case Processando => t.dataEnvio.None? && t.mailgunMessageId.None? && t.erroMsg.None?
    case Enviado => t.dataEnvio.Some? && t.mailgunMessageId.Some? && t.erroMsg.None?
    case Erro => t.erroMsg.Some? && t.dataEnvio.None? && t.mailgunMessageId.None?
    case Concluida => true
  }

  predicate AllWellFormed(m: map<Id, Task>)
  {
    forall id :: id in m ==> WellFormed(m[id])
  }

  /** Position of a status along the lifecycle: pendente, then processando,
      then one of enviado or erro, then concluida. */
  function Rank(s: Status): nat
  {
    match s
    case Pendente => 0
    case Processando => 1
    case Enviado => 2
    case Erro => 2
    case Concluida => 3
  }

  /** `b` is `a` or a later lifecycle stage; enviado and erro never turn into
      each other, and nothing goes back to pendente. */
  predicate Advances(a: Status, b: Status)
  {
    a == b || Rank(a) < Rank(b)
  }

  /** The fields fixed at creation: the request and both timestamps. */
  predicate SameRequest(t: Task, u: Task)
  {
    && t.remetenteNome == u.remetenteNome
    && t.destinatario == u.destinatario
    && t.assunto == u.assunto
    && t.mensagem == u.mensagem
    && t.dataAgendada == u.dataAgendada
    && t.criadoEm == u.criadoEm
  }

  /** Every task present before and after a step kept its request fields and
      moved forward (or stayed) in the lifecycle. */
  predicate Evolves(m: map<Id, Task>, m': map<Id, Task>)
  {
    forall id :: id in m && id in m' ==>
      SameRequest(m[id], m'[id]) && Advances(m[id].status, m'[id].status)
  }
}
