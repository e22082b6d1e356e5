/** Queues, exchanges and bindings declared at start-up, and where they send a message. */
module Topology {
  import opened Options
  import opened RateLimitKeys

  const RETRY_EXCHANGE := "retry.exchange"
  const DEAD_LETTER_EXCHANGE := "dlx.exchange"
  const STATUS_QUEUE := "message-status-updates"
  const RETRY_MANAGED_CHANNELS: seq<ChannelType> := [WhatsApp, ChannelType.Email, Telegram, MAX]

  function ChannelName(c: ChannelType): string {
    match c
    case Email => "Email"
    case MAX => "MAX"
    case WhatsApp => "WhatsApp"
    case Telegram => "Telegram"
  }

  function ChannelQueue(c: ChannelType): string { "messages." + ChannelName(c) }

  function ChannelDlq(c: ChannelType): string { "dlq." + NormalizeChannel(c) }

  predicate IsRetryManagedQueue(queue: string) {
    queue in [ChannelQueue(WhatsApp), ChannelQueue(ChannelType.Email), ChannelQueue(Telegram), ChannelQueue(MAX)]
  }

  /** The dead-letter exchange and routing key a queue is declared with. */
  function DeadLetterArguments(queue: string): Option<(string, string)> {
    if IsRetryManagedQueue(queue) then Some((DEAD_LETTER_EXCHANGE, queue)) else None
  }

  datatype Binding = Binding(exchange: string, routingKey: string, queue: string)

  function BindingsFor(c: ChannelType): set<Binding> {
    {Binding(DEAD_LETTER_EXCHANGE, ChannelQueue(c), ChannelDlq(c)),
     Binding(RETRY_EXCHANGE, ChannelQueue(c), ChannelQueue(c))}
  }

  /** The bindings in force after start-up. */
  ghost predicate Declared(b: Binding) {
    exists c: ChannelType :: b in BindingsFor(c)
  }

  class RabbitMqConnectionFactory {
    var queues: map<string, Option<(string, string)>>
    var bindings: set<Binding>

    constructor ()
      ensures queues == map[] && bindings == {}
    {
      queues := map[];
      bindings := {};
    }

    /** The declarations of `StartAsync`. */
    method StartAsync()
      modifies this
      ensures forall b :: b in bindings <==> b in old(bindings) || Declared(b)
      ensures forall c: ChannelType :: ChannelQueue(c) in queues && ChannelDlq(c) in queues
      ensures forall c: ChannelType :: queues[ChannelQueue(c)] == DeadLetterArguments(ChannelQueue(c))
                                       && queues[ChannelDlq(c)] == None
    {
      hide ChannelQueue, ChannelDlq, DeadLetterArguments;
      for i := 0 to |RETRY_MANAGED_CHANNELS|
        invariant forall b :: b in bindings <==>
                    (b in old(bindings) || exists c :: c in RETRY_MANAGED_CHANNELS[..i] && b in BindingsFor(c))
        invariant forall c :: c in RETRY_MANAGED_CHANNELS[..i] ==>
                    && ChannelQueue(c) in queues && ChannelDlq(c) in queues
                    && queues[ChannelQueue(c)] == DeadLetterArguments(ChannelQueue(c))
                    && queues[ChannelDlq(c)] == None
      {
        var c := RETRY_MANAGED_CHANNELS[i];
        assert RETRY_MANAGED_CHANNELS[..i + 1] == RETRY_MANAGED_CHANNELS[..i] + [c];
        var queueName, dlqName := ChannelQueue(c), ChannelDlq(c);
        forall d: ChannelType ensures ChannelDlq(d) != queueName {
          DlqIsNoChannelQueue(d, c);
        }
        assert BindingsFor(c)
            == {Binding(DEAD_LETTER_EXCHANGE, queueName, dlqName), Binding(RETRY_EXCHANGE, queueName, queueName)};
        queues := queues[queueName := DeadLetterArguments(queueName)];
        queues := queues[dlqName := None];
        bindings := bindings + {Binding(DEAD_LETTER_EXCHANGE, queueName, dlqName)};
        bindings := bindings + {Binding(RETRY_EXCHANGE, queueName, queueName)};
        forall d: ChannelType ensures ChannelQueue(d) != dlqName {
          DlqIsNoChannelQueue(c, d);
        }
      }
      forall c: ChannelType ensures c in RETRY_MANAGED_CHANNELS {
        EveryChannelIsManaged(c);
      }
      assert RETRY_MANAGED_CHANNELS[..|RETRY_MANAGED_CHANNELS|] == RETRY_MANAGED_CHANNELS;
    }
  }

  /** Queues and exchanges by their names. */
  lemma NamesAre()
    ensures ChannelQueue(ChannelType.Email) == "messages.Email" && ChannelDlq(ChannelType.Email) == "dlq.email"
    ensures ChannelQueue(MAX) == "messages.MAX" && ChannelDlq(MAX) == "dlq.max"
    ensures ChannelQueue(WhatsApp) == "messages.WhatsApp" && ChannelDlq(WhatsApp) == "dlq.whatsapp"
    ensures ChannelQueue(Telegram) == "messages.Telegram" && ChannelDlq(Telegram) == "dlq.telegram"
    ensures RETRY_EXCHANGE == "retry.exchange" && DEAD_LETTER_EXCHANGE == "dlx.exchange"
    ensures STATUS_QUEUE == "message-status-updates"
  {
  }

  /** Only the queues of the four channels have retries and dead letters. */
  lemma ManagedIff(queue: string)
    ensures IsRetryManagedQueue(queue) <==> exists c: ChannelType :: queue == ChannelQueue(c)
    ensures DeadLetterArguments(queue)
         == if exists c: ChannelType :: queue == ChannelQueue(c) then Some(("dlx.exchange", queue)) else None
  {
    hide ChannelQueue;
    if IsRetryManagedQueue(queue) {
      assert queue == ChannelQueue(WhatsApp) || queue == ChannelQueue(ChannelType.Email)
             || queue == ChannelQueue(Telegram) || queue == ChannelQueue(MAX);
    }
    if c: ChannelType :| queue == ChannelQueue(c) {
      assert c == WhatsApp || c == ChannelType.Email || c == Telegram || c == MAX;
    }
  }

  lemma EveryChannelIsManaged(c: ChannelType)
    ensures c in RETRY_MANAGED_CHANNELS
    ensures IsRetryManagedQueue(ChannelQueue(c))
  {
    assert RETRY_MANAGED_CHANNELS[0] == WhatsApp && RETRY_MANAGED_CHANNELS[1] == ChannelType.Email;
    assert RETRY_MANAGED_CHANNELS[2] == Telegram && RETRY_MANAGED_CHANNELS[3] == MAX;
  }

  lemma DlqIsNoChannelQueue(c: ChannelType, d: ChannelType)
    ensures ChannelDlq(c) != ChannelQueue(d)
  {
    assert ChannelDlq(c)[0] == 'd' && ChannelQueue(d)[0] == 'm';
  }

  lemma ChannelQueuesDistinct(c: ChannelType, d: ChannelType)
    ensures ChannelQueue(c) == ChannelQueue(d) <==> c == d
  {
    if ChannelQueue(c) == ChannelQueue(d) {
      SamePrefix("messages.", ChannelName(c), ChannelName(d));
      var s, t := ChannelName(c), ChannelName(d);
      assert s[0] == t[0] && |s| == |t|;
    }
  }

  /** The queue a direct exchange delivers to, if exactly one is bound under the key. */
  ghost function Destination(exchange: string, key: string): Option<string> {
    if exists q :: Declared(Binding(exchange, key, q)) && forall r :: Declared(Binding(exchange, key, r)) ==> r == q
    then
      var q :| Declared(Binding(exchange, key, q)) && forall r :: Declared(Binding(exchange, key, r)) ==> r == q;
      Some(q)
    else None
  }

  lemma OnlyBinding(exchange: string, c: ChannelType, q: string)
    requires || (exchange == RETRY_EXCHANGE && q == ChannelQueue(c))
             || (exchange == DEAD_LETTER_EXCHANGE && q == ChannelDlq(c))
    ensures Destination(exchange, ChannelQueue(c)) == Some(q)
  {
    assert RETRY_EXCHANGE[0] != DEAD_LETTER_EXCHANGE[0];
    assert Binding(exchange, ChannelQueue(c), q) in BindingsFor(c);
    forall r | Declared(Binding(exchange, ChannelQueue(c), r)) ensures r == q {
      var d: ChannelType :| Binding(exchange, ChannelQueue(c), r) in BindingsFor(d);
      ChannelQueuesDistinct(c, d);
    }
  }

  /** A delayed copy comes back to the queue it was taken from; a rejected one goes to the dead-letter
      queue of its own channel and to no other. */
  lemma RoutesStayInChannel(c: ChannelType)
    ensures Destination(RETRY_EXCHANGE, ChannelQueue(c)) == Some(ChannelQueue(c))
    ensures DeadLetterArguments(ChannelQueue(c)) == Some((DEAD_LETTER_EXCHANGE, ChannelQueue(c)))
    ensures Destination(DEAD_LETTER_EXCHANGE, ChannelQueue(c)) == Some(ChannelDlq(c))
    ensures !IsRetryManagedQueue(ChannelDlq(c)) && !IsRetryManagedQueue(STATUS_QUEUE)
  {
    OnlyBinding(RETRY_EXCHANGE, c, ChannelQueue(c));
    OnlyBinding(DEAD_LETTER_EXCHANGE, c, ChannelDlq(c));
    EveryChannelIsManaged(c);
    DlqIsNoChannelQueue(c, WhatsApp);
    DlqIsNoChannelQueue(c, ChannelType.Email);
    DlqIsNoChannelQueue(c, Telegram);
    DlqIsNoChannelQueue(c, MAX);
    StatusQueueIsNotManaged();
    hide ChannelQueue, ChannelDlq, Destination;
  }

  lemma StatusQueueIsNotManaged()
    ensures !IsRetryManagedQueue(STATUS_QUEUE)
  {
    assert STATUS_QUEUE[7] == '-';
    forall d: ChannelType ensures ChannelQueue(d) != STATUS_QUEUE {
      assert ChannelQueue(d)[7] == 's';
    }
    hide ChannelQueue;
  }
}
