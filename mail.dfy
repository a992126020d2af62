/** What the service hands to the delivery API: the newline rewrite of the
    message body, the two substitution points of the HTML template, and the
    fields of the dispatch mail and of the completion follow-up. */
module Mail {
  import opened Tasks

  /** The HTML line break that replaces every newline of a message body. */
  const LineBreak: string := "<br>"

  /** The message body as placed in the HTML template: every '\n' becomes
      "<br>", every other character is kept. */
  function FormatMessage(s: string): (r: string)
    ensures '\n' !in r
  {
    if s == [] then []
    else (if s[0] == '\n' then LineBreak else [s[0]]) + FormatMessage(s[1..])
  }

  /** Each newline grows by the three extra characters of "<br>"; nothing
      else changes length. */
  lemma {:induction false} FormatMessageLength(s: string)
    ensures |FormatMessage(s)| == |s| + 3 * multiset(s)['\n']
    decreases |s|
  {
    if s != [] {
      assert s == [s[0]] + s[1..];
      assert multiset(s) == multiset{s[0]} + multiset(s[1..]);
      FormatMessageLength(s[1..]);
    }
  }

  /** The rewrite works character by character: it distributes over
      concatenation. */
  lemma {:induction false} FormatMessageAppend(a: string, b: string)
    ensures FormatMessage(a + b) == FormatMessage(a) + FormatMessage(b)
    decreases |a|
  {
    if a != [] {
      assert (a + b)[0] == a[0];
      assert (a + b)[1..] == a[1..] + b;
      FormatMessageAppend(a[1..], b);
    } else {
      assert a + b == b;
    }
  }

  /** A newline becomes "<br>" and every other character is kept as it is;
      with FormatMessageAppend this fixes the rewrite of every body. */
  lemma FormatMessageChar(c: char)
    ensures FormatMessage([c]) == if c == '\n' then LineBreak else [c]
  {
    assert [c][1..] == [];
  }

  /** A body without newlines reaches the template unchanged. */
  lemma {:induction false} FormatMessageKeepsPlainText(s: string)
    requires '\n' !in s
    ensures FormatMessage(s) == s
    decreases |s|
  {
    if s != [] {
      assert s[0] != '\n';
      assert '\n' !in s[1..];
      FormatMessageKeepsPlainText(s[1..]);
    }
  }

  /** The two holes of the HTML template: the heading shows the subject and
      the paragraph shows the formatted body. */
  datatype Html = Html(heading: string, paragraph: string)

  function Template(assunto: string, mensagem: string): (h: Html)
    ensures h.heading == assunto
    ensures '\n' !in h.paragraph
    ensures h.paragraph == FormatMessage(mensagem)
  {
    Html(assunto, FormatMessage(mensagem))
  }

  /** One send request to the delivery API. The reply headers are present
      only on the completion follow-up. */
  datatype Message = Message(
    from: string,
    to: string,
    subject: string,
    text: string,
    html: Html,
    inReplyTo: Option<string>,
    references: Option<string>)

  /** The sender shown to the recipient: the task's sender name with the
      configured origin address. */
  function Sender(remetenteNome: string, origin: string): string
  {
    remetenteNome + " <" + origin + ">"
  }

  /** The mail a dispatch sends for a task. */
  function DispatchMessage(t: Task, origin: string): (msg: Message)
    ensures msg.from == Sender(t.remetenteNome, origin)
    ensures msg.to == t.destinatario && msg.subject == t.assunto && msg.text == t.mensagem
    ensures msg.html.heading == t.assunto && msg.html.paragraph == FormatMessage(t.mensagem)
    ensures msg.inReplyTo.None? && msg.references.None?
  {
    Message(Sender(t.remetenteNome, origin), t.destinatario, t.assunto, t.mensagem,
            Template(t.assunto, t.mensagem), None, None)
  }

  /** The subject of the completion follow-up. */
  function ReplySubject(assunto: string): (s: string)
    ensures |s| == |assunto| + 4 && s[..4] == "Re: " && s[4..] == assunto
  {
    "Re: " + assunto
  }

  /** The plain-text body of the completion follow-up: the subject, quoted,
      between a fixed lead and a fixed tail. */
  const CompletionLead: string := "A tarefa \""
  const CompletionTail: string := "\" foi marcada como concluída com sucesso."

  function CompletionText(assunto: string): string
  {
    CompletionLead + assunto + CompletionTail
  }

  /** The follow-up sent when a delivered task is completed: a reply to the
      delivered message, threaded on its message id through the In-Reply-To
      and References header fields (section 3.6.4 of RFC 5322). */
  function CompletionMessage(t: Task, origin: string): (msg: Message)
    requires t.mailgunMessageId.Some?
    ensures msg.from == Sender(t.remetenteNome, origin)
    ensures msg.to == t.destinatario
    ensures msg.subject == "Re: " + t.assunto
    ensures msg.text == CompletionText(t.assunto) && msg.html == Template(msg.subject, msg.text)
    ensures msg.inReplyTo == t.mailgunMessageId && msg.references == t.mailgunMessageId
    ensures msg.html.heading == msg.subject
  {
    var subject := ReplySubject(t.assunto);
    var text := CompletionText(t.assunto);
    Message(Sender(t.remetenteNome, origin), t.destinatario, subject, text,
            Template(subject, text), t.mailgunMessageId, t.mailgunMessageId)
  }
}
