/**
 * The command router as a specification: which command a text selects, what
 * each handler does to the registries, and the one reply it sends back.
 * The class in module Service runs the same handlers step by step and is
 * proved to agree with the functions here.
 */
module Commands {
  import opened Wrappers
  import opened Text
  import opened Markdown
  import opened Registry
  import Seqs

  /** The eight commands, in the order `onUpdateReceived` tests their prefixes. */
  datatype Command =
    | SetResponsible
    | UnsetResponsible
    | SetModerator
    | UnsetModerator
    | Subscribe
    | Unsubscribe
    | GetMyId
    | Help

  /** The prefix that selects each command. */
  function Name(c: Command): string {
    match c
    case SetResponsible => "/setresponsible"
    case UnsetResponsible => "/unsetresponsible"
    case SetModerator => "/setmoderator"
    case UnsetModerator => "/unsetmoderator"
    case Subscribe => "/subscribe"
    case Unsubscribe => "/unsubscribe"
    case GetMyId => "/getmyid"
    case Help => "/help"
  }

  /** The chain of `startsWith` tests of `onUpdateReceived`: the first prefix that matches wins. */
  function Route(text: string): (r: Option<Command>)
    ensures r.Some? ==> StartsWith(text, Name(r.value))
    ensures r.None? ==> forall c: Command :: !StartsWith(text, Name(c))
  {
    if StartsWith(text, "/setresponsible") then Some(SetResponsible)
    else if StartsWith(text, "/unsetresponsible") then Some(UnsetResponsible)
    else if StartsWith(text, "/setmoderator") then Some(SetModerator)
    else if StartsWith(text, "/unsetmoderator") then Some(UnsetModerator)
    else if StartsWith(text, "/subscribe") then Some(Subscribe)
    else if StartsWith(text, "/unsubscribe") then Some(Unsubscribe)
    else if StartsWith(text, "/getmyid") then Some(GetMyId)
    else if StartsWith(text, "/help") then Some(Help)
    else None
  }

  /** No command name is a prefix of another one. */
  lemma NamesPrefixFree(c: Command, d: Command)
    requires c != d
    ensures !StartsWith(Name(d), Name(c))
  {
    match c {
      case SetResponsible =>
        match d {
          case SetResponsible =>
          case UnsetResponsible => assert Name(d)[1] != Name(c)[1];
          case SetModerator =>
          case UnsetModerator => assert Name(d)[1] != Name(c)[1];
          case Subscribe =>
          case Unsubscribe =>
          case GetMyId =>
          case Help =>
        }
      case UnsetResponsible =>
        match d {
          case SetResponsible =>
          case UnsetResponsible =>
          case SetModerator =>
          case UnsetModerator =>
          case Subscribe =>
          case Unsubscribe =>
          case GetMyId =>
          case Help =>
        }
      case SetModerator =>
        match d {
          case SetResponsible => assert Name(d)[4] != Name(c)[4];
          case UnsetResponsible => assert Name(d)[1] != Name(c)[1];
          case SetModerator =>
          case UnsetModerator => assert Name(d)[1] != Name(c)[1];
          case Subscribe =>
          case Unsubscribe =>
          case GetMyId =>
          case Help =>
        }
      case UnsetModerator =>
        match d {
          case SetResponsible => assert Name(d)[1] != Name(c)[1];
          case UnsetResponsible => assert Name(d)[6] != Name(c)[6];
          case SetModerator =>
          case UnsetModerator =>
          case Subscribe =>
          case Unsubscribe =>
          case GetMyId =>
          case Help =>
        }
      case Subscribe =>
        match d {
          case SetResponsible => assert Name(d)[2] != Name(c)[2];
          case UnsetResponsible => assert Name(d)[1] != Name(c)[1];
          case SetModerator => assert Name(d)[2] != Name(c)[2];
          case UnsetModerator => assert Name(d)[1] != Name(c)[1];
          case Subscribe =>
          case Unsubscribe => assert Name(d)[1] != Name(c)[1];
          case GetMyId =>
          case Help =>
        }
      case Unsubscribe =>
        match d {
          case SetResponsible => assert Name(d)[1] != Name(c)[1];
          case UnsetResponsible => assert Name(d)[4] != Name(c)[4];
          case SetModerator => assert Name(d)[1] != Name(c)[1];
          case UnsetModerator => assert Name(d)[4] != Name(c)[4];
          case Subscribe =>
          case Unsubscribe =>
          case GetMyId =>
          case Help =>
        }
      case GetMyId =>
        match d {
          case SetResponsible => assert Name(d)[1] != Name(c)[1];
          case UnsetResponsible => assert Name(d)[1] != Name(c)[1];
          case SetModerator => assert Name(d)[1] != Name(c)[1];
          case UnsetModerator => assert Name(d)[1] != Name(c)[1];
          case Subscribe => assert Name(d)[1] != Name(c)[1];
          case Unsubscribe => assert Name(d)[1] != Name(c)[1];
          case GetMyId =>
          case Help =>
        }
      case Help =>
        match d {
          case SetResponsible => assert Name(d)[1] != Name(c)[1];
          case UnsetResponsible => assert Name(d)[1] != Name(c)[1];
          case SetModerator => assert Name(d)[1] != Name(c)[1];
          case UnsetModerator => assert Name(d)[1] != Name(c)[1];
          case Subscribe => assert Name(d)[1] != Name(c)[1];
          case Unsubscribe => assert Name(d)[1] != Name(c)[1];
          case GetMyId => assert Name(d)[1] != Name(c)[1];
          case Help =>
        }
    }
  }

  /**
   * The order of the prefix tests does not matter: a text that starts with a
   * command's name is routed to that command and no other.
   */
  lemma RouteUnambiguous(text: string, c: Command)
    requires StartsWith(text, Name(c))
    ensures Route(text) == Some(c)
  {
    var r := Route(text).value;
    if r != c {
      var n, m := Name(c), Name(r);
      if |n| <= |m| {
        assert m[..|n|] == text[..|n|] == n;
        NamesPrefixFree(c, r);
      } else {
        assert n[..|m|] == text[..|m|] == m;
        NamesPrefixFree(r, c);
      }
    }
  }

  /** The syntax line of each command, as the usage hints and the help text show it. */
  function Syntax(c: Command): string {
    match c
    case SetResponsible => "/setresponsible {Заказчик} {Тег_Ответственного_В_Телеграм}"
    case UnsetResponsible => "/unsetresponsible {Заказчик}"
    case SetModerator => "/setmoderator {Тег_Модератора_В_Телеграм}"
    case UnsetModerator => "/unsetmoderator {Тег_Модератора_В_Телеграм}"
    case Subscribe => "/subscribe {Заказчик}"
    case Unsubscribe => "/unsubscribe {Заказчик}"
    case GetMyId => "/getmyid"
    case Help => "/help"
  }

  /** The kinds of reply a handler sends, with the values they mention. */
  datatype Reply =
    | DeniedAssignResponsible
    | DeniedRemoveResponsible
    | DeniedAssignModerator
    | DeniedRemoveModerator
    | Usage(command: Command)
    | ResponsibleSet(customerArg: string, responsible: string)
    | ResponsibleRemoved(customerArg: string)
    | ResponsibleNotFound(customerArg: string)
    | ModeratorAdded(telegramId: string)
    | ModeratorExists(telegramId: string)
    | ModeratorRemoved(telegramId: string)
    | ModeratorNotFound(telegramId: string)
    | Subscribed(customer: string)
    | AlreadySubscribed(customer: string)
    | Unsubscribed(customer: string)
    | NotSubscribed(customer: string)
    | YourId(telegramId: string)
    | HelpList

  predicate IsDenial(r: Reply) {
    r.DeniedAssignResponsible? || r.DeniedRemoveResponsible? || r.DeniedAssignModerator? || r.DeniedRemoveModerator?
  }

  const HelpText: string :=
    "Доступные команды:\n" +
    "/setresponsible {Заказчик} {Тег_Ответственного_В_Телеграм} - Назначить ответственного\n" +
    "/unsetresponsible {Заказчик} - Удалить ответственного\n" +
    "/setmoderator {Тег_Модератора_В_Телеграм} - Назначить модератора (только для администратора)\n" +
    "/unsetmoderator {Тег_Модератора_В_Телеграм} - Удалить модератора (только для администратора)\n" +
    "/subscribe {Заказчик} - Подписаться на заказчика\n" +
    "/unsubscribe {Заказчик} - Отписаться от заказчика\n" +
    "/getmyid - Получить ваш числовой ID\n" +
    "/help - Показать это сообщение"

  /** The reply text before escaping. */
  function RawText(r: Reply): string {
    match r
    case DeniedAssignResponsible => "Только администратор или модератор могут назначать ответственных."
    case DeniedRemoveResponsible => "Только администратор или модератор могут удалять ответственных."
    case DeniedAssignModerator => "Только администратор может назначать модераторов."
    case DeniedRemoveModerator => "Только администратор может удалять модераторов."
    case Usage(c) => "Неверный формат команды. Используйте " + Syntax(c)
    case ResponsibleSet(c, t) => "Ответственный за " + c + " установлен как " + t
    case ResponsibleRemoved(c) => "Ответственный за " + c + " удален."
    case ResponsibleNotFound(c) => "Ответственный за " + c + " не найден."
    case ModeratorAdded(t) => "Модератор " + t + " добавлен."
    case ModeratorExists(t) => "Модератор " + t + " уже существует."
    case ModeratorRemoved(t) => "Модератор " + t + " удален."
    case ModeratorNotFound(t) => "Модератор " + t + " не найден."
    case Subscribed(c) => "Вы подписаны на " + c
    case AlreadySubscribed(c) => "Вы уже подписаны на " + c
    case Unsubscribed(c) => "Вы отписаны от " + c
    case NotSubscribed(c) => "Вы не подписаны на " + c
    case YourId(t) => "Ваш числовой ID: " + t
    case HelpList => HelpText
  }

  /** Every reply is sent escaped for MarkdownV2. */
  function ReplyText(r: Reply): string {
    EscapeMarkdown(RawText(r))
  }

  /** A text message as the handlers see it: chat, author id and text. */
  datatype Inbound = Inbound(chatId: string, senderId: string, text: string)

  /** What one handler leaves behind: the new registries and its one reply. */
  datatype Effect = Effect(regs: Registries, reply: Reply)

  /** `handleSetResponsibleCommand`: authorization first, then three pieces, then upsert. */
  function HandleSetResponsible(cfg: Config, regs: Registries, m: Inbound): (e: Effect)
    ensures e.regs.moderators == regs.moderators && e.regs.subscriptions == regs.subscriptions
    ensures regs.responsible.Keys <= e.regs.responsible.Keys && |e.regs.responsible.Keys| <= |regs.responsible.Keys| + 1
    ensures e.regs != regs ==> IsModeratorOrAdmin(cfg, regs, m.senderId)
  {
    if !IsModeratorOrAdmin(cfg, regs, m.senderId) then Effect(regs, DeniedAssignResponsible)
    else
      var parts := Split(m.text, 3);
      if |parts| == 3 then
        var customer := NormalizeKey(parts[1]);
        Effect(regs.(responsible := regs.responsible[customer := parts[2]]), ResponsibleSet(parts[1], parts[2]))
      else Effect(regs, Usage(SetResponsible))
  }

  /** `handleUnsetResponsibleCommand`: authorization first, then two pieces, then delete if present. */
  function HandleUnsetResponsible(cfg: Config, regs: Registries, m: Inbound): (e: Effect)
    ensures e.regs.moderators == regs.moderators && e.regs.subscriptions == regs.subscriptions
    ensures e.regs.responsible.Keys <= regs.responsible.Keys
    ensures forall c :: c in e.regs.responsible ==> e.regs.responsible[c] == regs.responsible[c]
    ensures e.regs != regs ==> IsModeratorOrAdmin(cfg, regs, m.senderId)
  {
    if !IsModeratorOrAdmin(cfg, regs, m.senderId) then Effect(regs, DeniedRemoveResponsible)
    else
      var parts := Split(m.text, 2);
      if |parts| == 2 then
        var customer := NormalizeKey(parts[1]);
        if customer in regs.responsible then
          Effect(regs.(responsible := regs.responsible - {customer}), ResponsibleRemoved(parts[1]))
        else Effect(regs, ResponsibleNotFound(parts[1]))
      else Effect(regs, Usage(UnsetResponsible))
  }

  /** `handleSetModeratorCommand`: admin only, then two pieces, then insert if absent. */
  function HandleSetModerator(cfg: Config, regs: Registries, m: Inbound): (e: Effect)
    ensures e.regs.responsible == regs.responsible && e.regs.subscriptions == regs.subscriptions
    ensures regs.moderators <= e.regs.moderators && |e.regs.moderators| <= |regs.moderators| + 1
    ensures e.regs != regs ==> IsAdmin(cfg, m.senderId)
  {
    if !IsAdmin(cfg, m.senderId) then Effect(regs, DeniedAssignModerator)
    else
      var parts := Split(m.text, 2);
      if |parts| == 2 then
        var telegramId := parts[1];
        if telegramId !in regs.moderators then
          Effect(regs.(moderators := regs.moderators + [telegramId]), ModeratorAdded(telegramId))
        else Effect(regs, ModeratorExists(telegramId))
      else Effect(regs, Usage(SetModerator))
  }

  /** `handleUnsetModeratorCommand`: admin only, then two pieces, then delete if present. */
  function HandleUnsetModerator(cfg: Config, regs: Registries, m: Inbound): (e: Effect)
    ensures e.regs.responsible == regs.responsible && e.regs.subscriptions == regs.subscriptions
    ensures multiset(e.regs.moderators) <= multiset(regs.moderators)
    ensures e.regs != regs ==> IsAdmin(cfg, m.senderId)
  {
    if !IsAdmin(cfg, m.senderId) then Effect(regs, DeniedRemoveModerator)
    else
      var parts := Split(m.text, 2);
      if |parts| == 2 then
        var telegramId := parts[1];
        if telegramId in regs.moderators then
          Effect(regs.(moderators := Seqs.Remove(regs.moderators, telegramId)), ModeratorRemoved(telegramId))
        else Effect(regs, ModeratorNotFound(telegramId))
      else Effect(regs, Usage(UnsetModerator))
  }

  /** `handleSubscribeCommand`: anyone; two pieces, then insert the sender's pair if absent. */
  function HandleSubscribe(regs: Registries, m: Inbound): (e: Effect)
    ensures e.regs.moderators == regs.moderators && e.regs.responsible == regs.responsible
    ensures regs.subscriptions <= e.regs.subscriptions && |e.regs.subscriptions| <= |regs.subscriptions| + 1
    ensures forall k :: |regs.subscriptions| <= k < |e.regs.subscriptions| ==> e.regs.subscriptions[k].telegramId == m.senderId
  {
    var parts := Split(m.text, 2);
    if |parts| == 2 then
      var customer := NormalizeKey(parts[1]);
      var sub := Subscription(customer, m.senderId);
      if sub !in regs.subscriptions then
        Effect(regs.(subscriptions := regs.subscriptions + [sub]), Subscribed(customer))
      else Effect(regs, AlreadySubscribed(customer))
    else Effect(regs, Usage(Subscribe))
  }

  /** `handleUnsubscribeCommand`: anyone; two pieces, then delete the sender's pair if present. */
  function HandleUnsubscribe(regs: Registries, m: Inbound): (e: Effect)
    ensures e.regs.moderators == regs.moderators && e.regs.responsible == regs.responsible
    ensures multiset(e.regs.subscriptions) <= multiset(regs.subscriptions)
    ensures forall s :: s in regs.subscriptions && s !in e.regs.subscriptions ==> s.telegramId == m.senderId
  {
    var parts := Split(m.text, 2);
    if |parts| == 2 then
      var customer := NormalizeKey(parts[1]);
      var sub := Subscription(customer, m.senderId);
      if sub in regs.subscriptions then
        var rest := Seqs.Remove(regs.subscriptions, sub);
        assert forall s :: s in regs.subscriptions && s != sub ==> s in multiset(rest);
        Effect(regs.(subscriptions := rest), Unsubscribed(customer))
      else Effect(regs, NotSubscribed(customer))
    else Effect(regs, Usage(Unsubscribe))
  }

  /** The handler each command selects. */
  function Handle(c: Command, cfg: Config, regs: Registries, m: Inbound): Effect {
    match c
    case SetResponsible => HandleSetResponsible(cfg, regs, m)
    case UnsetResponsible => HandleUnsetResponsible(cfg, regs, m)
    case SetModerator => HandleSetModerator(cfg, regs, m)
    case UnsetModerator => HandleUnsetModerator(cfg, regs, m)
    case Subscribe => HandleSubscribe(regs, m)
    case Unsubscribe => HandleUnsubscribe(regs, m)
    case GetMyId => Effect(regs, YourId(m.senderId))
    case Help => Effect(regs, HelpList)
  }

  /** An update from the chat platform: maybe a message, which maybe has text. */
  datatype Message = Message(chatId: string, senderId: string, text: Option<string>)
  datatype Update = Update(message: Option<Message>)

  /** The registries after one update and the messages it sent. */
  datatype Outcome = Outcome(regs: Registries, sends: seq<Send>)

  /** `onUpdateReceived` on a text message: route, handle, reply to the originating chat. */
  function Dispatch(cfg: Config, regs: Registries, m: Inbound): (o: Outcome)
    ensures |o.sends| <= 1 && (o.sends == [] <==> Route(m.text).None?)
    ensures forall k :: 0 <= k < |o.sends| ==> o.sends[k].chatId == m.chatId
    ensures o.sends == [] ==> o.regs == regs
  {
    match Route(m.text)
    case None => Outcome(regs, [])
    case Some(c) =>
      var e := Handle(c, cfg, regs, m);
      Outcome(e.regs, [Send(m.chatId, ReplyText(e.reply))])
  }

  /** `onUpdateReceived`: updates without a text message are ignored. */
  function Step(cfg: Config, regs: Registries, u: Update): (o: Outcome)
    ensures |o.sends| <= 1 && (o.sends == [] ==> o.regs == regs)
    ensures o.sends != [] ==> u.message.Some? && o.sends[0].chatId == u.message.value.chatId
    ensures TextOf(u).None? ==> o == Outcome(regs, [])
  {
    match u.message
    case None => Outcome(regs, [])
    case Some(msg) =>
      match msg.text
      case None => Outcome(regs, [])
      case Some(text) => Dispatch(cfg, regs, Inbound(msg.chatId, msg.senderId, text))
  }

  // ---------------------------------------------------------------------------
  // Properties of the router
  // ---------------------------------------------------------------------------

  /** The text an update carries, if it carries one. */
  function TextOf(u: Update): Option<string> {
    if u.message.Some? then u.message.value.text else None
  }

  /**
   * An update gets a reply exactly when it is a text message starting with
   * one of the eight command names; then it gets one reply, sent to the chat
   * it came from. Every other update changes nothing.
   */
  lemma StepReplies(cfg: Config, regs: Registries, u: Update)
    ensures var o := Step(cfg, regs, u);
      && |o.sends| <= 1
      && (|o.sends| == 1 <==> TextOf(u).Some? && exists c: Command :: StartsWith(TextOf(u).value, Name(c)))
      && (|o.sends| == 1 ==> o.sends[0].chatId == u.message.value.chatId)
      && (o.sends == [] ==> o.regs == regs)
  {
    if TextOf(u).Some? {
      var text := TextOf(u).value;
      if Route(text).Some? {
        assert StartsWith(text, Name(Route(text).value));
      }
    }
  }

  /**
   * The responsible-party commands need a moderator or the admin, and the
   * check comes before the argument count: for every text, the reply is a
   * denial exactly when the sender is neither, and then nothing changes.
   */
  lemma ResponsibleCommandsNeedModeratorOrAdmin(cfg: Config, regs: Registries, m: Inbound, c: Command)
    requires c == SetResponsible || c == UnsetResponsible
    ensures var e := Handle(c, cfg, regs, m);
      && (IsDenial(e.reply) <==> !IsModeratorOrAdmin(cfg, regs, m.senderId))
      && (IsDenial(e.reply) ==> e.regs == regs)
  {
  }

  /**
   * The moderator commands need the exact admin id (being a moderator is not
   * enough), again checked before the argument count.
   */
  lemma ModeratorCommandsNeedAdmin(cfg: Config, regs: Registries, m: Inbound, c: Command)
    requires c == SetModerator || c == UnsetModerator
    ensures var e := Handle(c, cfg, regs, m);
      && (IsDenial(e.reply) <==> m.senderId != cfg.adminId)
      && (IsDenial(e.reply) ==> e.regs == regs)
  {
  }

  /** The number of pieces each command expects. */
  function Arity(c: Command): nat {
    match c
    case SetResponsible => 3
    case GetMyId => 1
    case Help => 1
    case _ => 2
  }

  /**
   * A wrong argument count, `/getmyid` and `/help` never touch the registries;
   * a wrong count (past authorization) gets the usage hint of that command.
   */
  lemma ReadOnlyReplies(cfg: Config, regs: Registries, m: Inbound, c: Command)
    ensures var e := Handle(c, cfg, regs, m);
      && (c == GetMyId ==> e == Effect(regs, YourId(m.senderId)))
      && (c == Help ==> e == Effect(regs, HelpList))
      && (Arity(c) > 1 && |Split(m.text, Arity(c))| != Arity(c) && !IsDenial(e.reply)
          ==> e == Effect(regs, Usage(c)))
  {
  }

  /** Every handler keeps the registries valid. */
  lemma HandlePreservesValid(c: Command, cfg: Config, regs: Registries, m: Inbound)
    requires Valid(regs)
    ensures Valid(Handle(c, cfg, regs, m).regs)
  {
    match c
    case SetResponsible => SetResponsibleKeepsValid(cfg, regs, m);
    case UnsetResponsible =>
    case SetModerator => SetModeratorKeepsValid(cfg, regs, m);
    case UnsetModerator => UnsetModeratorKeepsValid(cfg, regs, m);
    case Subscribe => SubscribeKeepsValid(regs, m);
    case Unsubscribe => UnsubscribeKeepsValid(regs, m);
    case GetMyId =>
    case Help =>
  }

  lemma SetResponsibleKeepsValid(cfg: Config, regs: Registries, m: Inbound)
    requires Valid(regs)
    ensures Valid(HandleSetResponsible(cfg, regs, m).regs)
  {
    var parts := Split(m.text, 3);
    if |parts| == 3 {
      NormalizeKeyIdempotent(parts[1]);
    }
  }

  lemma SetModeratorKeepsValid(cfg: Config, regs: Registries, m: Inbound)
    requires Valid(regs)
    ensures Valid(HandleSetModerator(cfg, regs, m).regs)
  {
    var parts := Split(m.text, 2);
    if IsAdmin(cfg, m.senderId) && |parts| == 2 && parts[1] !in regs.moderators {
      Seqs.AppendAbsentKeepsNoDuplicates(regs.moderators, parts[1]);
    }
  }

  lemma UnsetModeratorKeepsValid(cfg: Config, regs: Registries, m: Inbound)
    requires Valid(regs)
    ensures Valid(HandleUnsetModerator(cfg, regs, m).regs)
  {
    var parts := Split(m.text, 2);
    if |parts| == 2 {
      Seqs.RemoveKeepsNoDuplicates(regs.moderators, parts[1]);
    }
  }

  lemma SubscribeKeepsValid(regs: Registries, m: Inbound)
    requires Valid(regs)
    ensures Valid(HandleSubscribe(regs, m).regs)
  {
    var parts := Split(m.text, 2);
    if |parts| == 2 {
      var sub := Subscription(NormalizeKey(parts[1]), m.senderId);
      NormalizeKeyIdempotent(parts[1]);
      if sub !in regs.subscriptions {
        Seqs.AppendAbsentKeepsNoDuplicates(regs.subscriptions, sub);
      }
    }
  }

  lemma UnsubscribeKeepsValid(regs: Registries, m: Inbound)
    requires Valid(regs)
    ensures Valid(HandleUnsubscribe(regs, m).regs)
  {
    var parts := Split(m.text, 2);
    if |parts| == 2 {
      var sub := Subscription(NormalizeKey(parts[1]), m.senderId);
      var r := Seqs.Remove(regs.subscriptions, sub);
      Seqs.RemoveKeepsNoDuplicates(regs.subscriptions, sub);
      forall s | s in r ensures IsKey(s.customer) {
        assert multiset(r)[s] > 0;
      }
    }
  }

  /** Every update keeps the registries valid. */
  lemma StepPreservesValid(cfg: Config, regs: Registries, u: Update)
    requires Valid(regs)
    ensures Valid(Step(cfg, regs, u).regs)
  {
    if TextOf(u).Some? {
      var text := TextOf(u).value;
      if Route(text).Some? {
        HandlePreservesValid(Route(text).value, cfg, regs, Inbound(u.message.value.chatId, u.message.value.senderId, text));
      }
    }
  }

  // ---------------------------------------------------------------------------
  // Whole commands as typed in the chat
  // ---------------------------------------------------------------------------

  /** The text of a command with its arguments, separated by single spaces. */
  function CommandText(c: Command, args: seq<string>): string {
    Join([Name(c)] + args)
  }

  /** A command typed with its arguments is routed to it and split back into them. */
  lemma CommandTextParts(c: Command, args: seq<string>)
    requires 1 + |args| == Arity(c) > 1
    requires forall k :: 0 <= k < |args| - 1 ==> ' ' !in args[k]
    ensures Route(CommandText(c, args)) == Some(c)
    ensures Split(CommandText(c, args), Arity(c)) == [Name(c)] + args
  {
    var parts := [Name(c)] + args;
    var text := Join(parts);
    assert text == Name(c) + " " + Join(args);
    assert text[..|Name(c)|] == Name(c);
    RouteUnambiguous(text, c);
    forall k | 0 <= k < |parts| - 1 ensures ' ' !in parts[k] {
      if k > 0 { assert parts[k] == args[k - 1]; }
    }
    SplitJoin(parts, Arity(c));
  }

  /** Dispatching a recognised text is running its handler, with its effect already worked out, and replying with the result. */
  lemma DispatchEffect(cfg: Config, regs: Registries, m: Inbound, c: Command, e: Effect)
    requires Route(m.text) == Some(c) && Handle(c, cfg, regs, m) == e
    ensures Dispatch(cfg, regs, m) == Outcome(e.regs, [Send(m.chatId, ReplyText(e.reply))])
  {
  }

  /** `/setresponsible C R` from a moderator or the admin upserts the key of C. */
  lemma SetResponsibleDispatch(cfg: Config, regs: Registries, chat: string, sender: string, c: string, r: string)
    requires ' ' !in c
    requires IsModeratorOrAdmin(cfg, regs, sender)
    ensures Dispatch(cfg, regs, Inbound(chat, sender, CommandText(SetResponsible, [c, r]))) ==
      Outcome(regs.(responsible := regs.responsible[NormalizeKey(c) := r]), [Send(chat, ReplyText(ResponsibleSet(c, r)))])
  {
    CommandTextParts(SetResponsible, [c, r]);
    SetResponsibleParsed(cfg, regs, Inbound(chat, sender, CommandText(SetResponsible, [c, r])), c, r);
  }

  /**
   * The handler never reads the first piece: any routed text of three pieces
   * (`/setresponsible@bot C R` as well) upserts the key of its second piece.
   */
  lemma SetResponsibleParsed(cfg: Config, regs: Registries, m: Inbound, c: string, r: string)
    requires Route(m.text) == Some(SetResponsible) && |Split(m.text, 3)| == 3 && Split(m.text, 3)[1..] == [c, r]
    requires IsModeratorOrAdmin(cfg, regs, m.senderId)
    ensures Dispatch(cfg, regs, m) ==
      Outcome(regs.(responsible := regs.responsible[NormalizeKey(c) := r]), [Send(m.chatId, ReplyText(ResponsibleSet(c, r)))])
  {
    DispatchEffect(cfg, regs, m, SetResponsible, HandleSetResponsible(cfg, regs, m));
  }

  /** `/unsetresponsible C` from a moderator or the admin deletes the assignment of the key of C, or answers that there is none. */
  lemma UnsetResponsibleDispatch(cfg: Config, regs: Registries, chat: string, sender: string, c: string)
    requires IsModeratorOrAdmin(cfg, regs, sender)
    ensures Dispatch(cfg, regs, Inbound(chat, sender, CommandText(UnsetResponsible, [c]))) ==
      if NormalizeKey(c) in regs.responsible
      then Outcome(regs.(responsible := regs.responsible - {NormalizeKey(c)}), [Send(chat, ReplyText(ResponsibleRemoved(c)))])
      else Outcome(regs, [Send(chat, ReplyText(ResponsibleNotFound(c)))])
  {
    CommandTextParts(UnsetResponsible, [c]);
    UnsetResponsibleParsed(cfg, regs, Inbound(chat, sender, CommandText(UnsetResponsible, [c])), c);
  }

  /** Any routed text of two pieces, whatever its first piece, unsets the key of its second. */
  lemma UnsetResponsibleParsed(cfg: Config, regs: Registries, m: Inbound, c: string)
    requires Route(m.text) == Some(UnsetResponsible) && |Split(m.text, 2)| == 2 && Split(m.text, 2)[1] == c
    requires IsModeratorOrAdmin(cfg, regs, m.senderId)
    ensures Dispatch(cfg, regs, m) ==
      if NormalizeKey(c) in regs.responsible
      then Outcome(regs.(responsible := regs.responsible - {NormalizeKey(c)}), [Send(m.chatId, ReplyText(ResponsibleRemoved(c)))])
      else Outcome(regs, [Send(m.chatId, ReplyText(ResponsibleNotFound(c)))])
  {
    DispatchEffect(cfg, regs, m, UnsetResponsible, HandleUnsetResponsible(cfg, regs, m));
  }

  /** `/setmoderator T` from the admin inserts T unless it is already there. */
  lemma SetModeratorDispatch(cfg: Config, regs: Registries, chat: string, t: string)
    ensures Dispatch(cfg, regs, Inbound(chat, cfg.adminId, CommandText(SetModerator, [t]))) ==
      if t in regs.moderators then Outcome(regs, [Send(chat, ReplyText(ModeratorExists(t)))])
      else Outcome(regs.(moderators := regs.moderators + [t]), [Send(chat, ReplyText(ModeratorAdded(t)))])
  {
    CommandTextParts(SetModerator, [t]);
    SetModeratorParsed(cfg, regs, Inbound(chat, cfg.adminId, CommandText(SetModerator, [t])), t);
  }

  /** Any routed text of two pieces, whatever its first piece, adds its second as a moderator. */
  lemma SetModeratorParsed(cfg: Config, regs: Registries, m: Inbound, t: string)
    requires Route(m.text) == Some(SetModerator) && |Split(m.text, 2)| == 2 && Split(m.text, 2)[1] == t
    requires IsAdmin(cfg, m.senderId)
    ensures Dispatch(cfg, regs, m) ==
      if t in regs.moderators then Outcome(regs, [Send(m.chatId, ReplyText(ModeratorExists(t)))])
      else Outcome(regs.(moderators := regs.moderators + [t]), [Send(m.chatId, ReplyText(ModeratorAdded(t)))])
  {
    DispatchEffect(cfg, regs, m, SetModerator, HandleSetModerator(cfg, regs, m));
  }

  /** `/unsetmoderator T` from the admin removes T, or answers that it is not there. */
  lemma UnsetModeratorDispatch(cfg: Config, regs: Registries, chat: string, t: string)
    ensures Dispatch(cfg, regs, Inbound(chat, cfg.adminId, CommandText(UnsetModerator, [t]))) ==
      if t in regs.moderators then Outcome(regs.(moderators := Seqs.Remove(regs.moderators, t)), [Send(chat, ReplyText(ModeratorRemoved(t)))])
      else Outcome(regs, [Send(chat, ReplyText(ModeratorNotFound(t)))])
  {
    CommandTextParts(UnsetModerator, [t]);
    UnsetModeratorParsed(cfg, regs, Inbound(chat, cfg.adminId, CommandText(UnsetModerator, [t])), t);
  }

  /** Any routed text of two pieces, whatever its first piece, removes its second as a moderator. */
  lemma UnsetModeratorParsed(cfg: Config, regs: Registries, m: Inbound, t: string)
    requires Route(m.text) == Some(UnsetModerator) && |Split(m.text, 2)| == 2 && Split(m.text, 2)[1] == t
    requires IsAdmin(cfg, m.senderId)
    ensures Dispatch(cfg, regs, m) ==
      if t in regs.moderators then Outcome(regs.(moderators := Seqs.Remove(regs.moderators, t)), [Send(m.chatId, ReplyText(ModeratorRemoved(t)))])
      else Outcome(regs, [Send(m.chatId, ReplyText(ModeratorNotFound(t)))])
  {
    DispatchEffect(cfg, regs, m, UnsetModerator, HandleUnsetModerator(cfg, regs, m));
  }

  lemma SubscribeEffect(regs: Registries, m: Inbound, c: string)
    requires |Split(m.text, 2)| == 2 && Split(m.text, 2)[1] == c
    ensures var sub := Subscription(NormalizeKey(c), m.senderId);
      HandleSubscribe(regs, m) ==
      if sub in regs.subscriptions then Effect(regs, AlreadySubscribed(sub.customer))
      else Effect(regs.(subscriptions := regs.subscriptions + [sub]), Subscribed(sub.customer))
  {
  }

  lemma UnsubscribeEffect(regs: Registries, m: Inbound, c: string)
    requires |Split(m.text, 2)| == 2 && Split(m.text, 2)[1] == c
    ensures var sub := Subscription(NormalizeKey(c), m.senderId);
      HandleUnsubscribe(regs, m) ==
      if sub in regs.subscriptions then Effect(regs.(subscriptions := Seqs.Remove(regs.subscriptions, sub)), Unsubscribed(sub.customer))
      else Effect(regs, NotSubscribed(sub.customer))
  {
  }

  /** `/subscribe C` adds the sender's subscription to the key of C unless it is already there. */
  lemma SubscribeDispatch(cfg: Config, regs: Registries, chat: string, sender: string, c: string)
    ensures var sub := Subscription(NormalizeKey(c), sender);
      Dispatch(cfg, regs, Inbound(chat, sender, CommandText(Subscribe, [c]))) ==
      if sub in regs.subscriptions then Outcome(regs, [Send(chat, ReplyText(AlreadySubscribed(sub.customer)))])
      else Outcome(regs.(subscriptions := regs.subscriptions + [sub]), [Send(chat, ReplyText(Subscribed(sub.customer)))])
  {
    CommandTextParts(Subscribe, [c]);
    SubscribeParsed(cfg, regs, Inbound(chat, sender, CommandText(Subscribe, [c])), c);
  }

  /** Any routed text of two pieces, whatever its first piece, subscribes the sender to the key of its second. */
  lemma SubscribeParsed(cfg: Config, regs: Registries, m: Inbound, c: string)
    requires Route(m.text) == Some(Subscribe) && |Split(m.text, 2)| == 2 && Split(m.text, 2)[1] == c
    ensures var sub := Subscription(NormalizeKey(c), m.senderId);
      Dispatch(cfg, regs, m) ==
      if sub in regs.subscriptions then Outcome(regs, [Send(m.chatId, ReplyText(AlreadySubscribed(sub.customer)))])
      else Outcome(regs.(subscriptions := regs.subscriptions + [sub]), [Send(m.chatId, ReplyText(Subscribed(sub.customer)))])
  {
    var sub := Subscription(NormalizeKey(c), m.senderId);
    var e := HandleSubscribe(regs, m);
    SubscribeEffect(regs, m, c);
    DispatchEffect(cfg, regs, m, Subscribe, e);
    if sub in regs.subscriptions {
      assert e == Effect(regs, AlreadySubscribed(sub.customer));
    } else {
      assert e == Effect(regs.(subscriptions := regs.subscriptions + [sub]), Subscribed(sub.customer));
    }
  }

  /** `/unsubscribe C` removes the sender's subscription to the key of C, or answers that there is none. */
  lemma UnsubscribeDispatch(cfg: Config, regs: Registries, chat: string, sender: string, c: string)
    ensures var sub := Subscription(NormalizeKey(c), sender);
      Dispatch(cfg, regs, Inbound(chat, sender, CommandText(Unsubscribe, [c]))) ==
      if sub in regs.subscriptions then Outcome(regs.(subscriptions := Seqs.Remove(regs.subscriptions, sub)), [Send(chat, ReplyText(Unsubscribed(sub.customer)))])
      else Outcome(regs, [Send(chat, ReplyText(NotSubscribed(sub.customer)))])
  {
    CommandTextParts(Unsubscribe, [c]);
    UnsubscribeParsed(cfg, regs, Inbound(chat, sender, CommandText(Unsubscribe, [c])), c);
  }

  /** Any routed text of two pieces, whatever its first piece, unsubscribes the sender from the key of its second. */
  lemma UnsubscribeParsed(cfg: Config, regs: Registries, m: Inbound, c: string)
    requires Route(m.text) == Some(Unsubscribe) && |Split(m.text, 2)| == 2 && Split(m.text, 2)[1] == c
    ensures var sub := Subscription(NormalizeKey(c), m.senderId);
      Dispatch(cfg, regs, m) ==
      if sub in regs.subscriptions then Outcome(regs.(subscriptions := Seqs.Remove(regs.subscriptions, sub)), [Send(m.chatId, ReplyText(Unsubscribed(sub.customer)))])
      else Outcome(regs, [Send(m.chatId, ReplyText(NotSubscribed(sub.customer)))])
  {
    var sub := Subscription(NormalizeKey(c), m.senderId);
    var e := HandleUnsubscribe(regs, m);
    UnsubscribeEffect(regs, m, c);
    DispatchEffect(cfg, regs, m, Unsubscribe, e);
    if sub in regs.subscriptions {
      assert e == Effect(regs.(subscriptions := Seqs.Remove(regs.subscriptions, sub)), Unsubscribed(sub.customer));
    } else {
      assert e == Effect(regs, NotSubscribed(sub.customer));
    }
  }

  /**
   * Sending `/setresponsible C R` and then `/setresponsible C R2` leaves
   * exactly one assignment for the key of C, with value R2: the second
   * command overwrites and adds no key.
   */
  lemma SetResponsibleTwice(cfg: Config, regs: Registries, chat: string, sender: string,
                            c: string, r1: string, r2: string)
    requires ' ' !in c
    requires IsModeratorOrAdmin(cfg, regs, sender)
    ensures var o1 := Dispatch(cfg, regs, Inbound(chat, sender, CommandText(SetResponsible, [c, r1])));
      var o2 := Dispatch(cfg, o1.regs, Inbound(chat, sender, CommandText(SetResponsible, [c, r2])));
      && o2.regs == regs.(responsible := regs.responsible[NormalizeKey(c) := r2])
      && o2.regs.responsible.Keys == o1.regs.responsible.Keys
  {
    SetResponsibleDispatch(cfg, regs, chat, sender, c, r1);
    var o1 := Dispatch(cfg, regs, Inbound(chat, sender, CommandText(SetResponsible, [c, r1])));
    SetResponsibleDispatch(cfg, o1.regs, chat, sender, c, r2);
    UpsertTwice(regs.responsible, o1.regs.responsible, NormalizeKey(c), r1, r2);
  }

  /**
   * `/setresponsible C R` then `/unsetresponsible C`: the key of C has no
   * assignment afterwards, whether or not it had one before, and every
   * other assignment is as it was.
   */
  lemma ResponsibleSetUnset(cfg: Config, regs: Registries, chat: string, sender: string, c: string, r: string)
    requires ' ' !in c
    requires IsModeratorOrAdmin(cfg, regs, sender)
    ensures var o1 := Dispatch(cfg, regs, Inbound(chat, sender, CommandText(SetResponsible, [c, r])));
      var o2 := Dispatch(cfg, o1.regs, Inbound(chat, sender, CommandText(UnsetResponsible, [c])));
      o2.regs == regs.(responsible := regs.responsible - {NormalizeKey(c)})
  {
    SetResponsibleDispatch(cfg, regs, chat, sender, c, r);
    var o1 := Dispatch(cfg, regs, Inbound(chat, sender, CommandText(SetResponsible, [c, r])));
    UnsetResponsibleDispatch(cfg, o1.regs, chat, sender, c);
    UpsertRemove(regs.responsible, o1.regs.responsible, NormalizeKey(c), r);
  }

  /** Removing a key just upserted leaves the map without that key. */
  lemma UpsertRemove<K, V>(m0: map<K, V>, m1: map<K, V>, k: K, v: V)
    requires m1 == m0[k := v]
    ensures k in m1 && m1 - {k} == m0 - {k}
  {
  }

  /** A second upsert of the same key overwrites the first and adds no key. */
  lemma UpsertTwice<K, V>(m0: map<K, V>, m1: map<K, V>, k: K, v1: V, v2: V)
    requires m1 == m0[k := v1]
    ensures m1[k := v2] == m0[k := v2]
    ensures m1[k := v2].Keys == m1.Keys
  {
  }

  /**
   * `/setmoderator T` then `/unsetmoderator T` from the admin: after the
   * first there is exactly one moderator T, after the second none, and no
   * other moderator is touched by either.
   */
  lemma ModeratorSetUnset(cfg: Config, regs: Registries, chat: string, t: string)
    requires Valid(regs)
    ensures var o1 := Dispatch(cfg, regs, Inbound(chat, cfg.adminId, CommandText(SetModerator, [t])));
      var o2 := Dispatch(cfg, o1.regs, Inbound(chat, cfg.adminId, CommandText(UnsetModerator, [t])));
      && multiset(o1.regs.moderators) == multiset(regs.moderators)[t := 1]
      && multiset(o2.regs.moderators) == multiset(regs.moderators)[t := 0]
  {
    SetModeratorDispatch(cfg, regs, chat, t);
    var o1 := Dispatch(cfg, regs, Inbound(chat, cfg.adminId, CommandText(SetModerator, [t])));
    UnsetModeratorDispatch(cfg, o1.regs, chat, t);
    var o2 := Dispatch(cfg, o1.regs, Inbound(chat, cfg.adminId, CommandText(UnsetModerator, [t])));
    InsertRemove(regs.moderators, o1.regs.moderators, o2.regs.moderators, t);
  }

  /** Insert-if-absent then remove on a duplicate-free sequence: one copy, then none. */
  lemma InsertRemove<T>(s0: seq<T>, s1: seq<T>, s2: seq<T>, x: T)
    requires Seqs.NoDuplicates(s0)
    requires s1 == if x in s0 then s0 else s0 + [x]
    requires s2 == if x in s1 then Seqs.Remove(s1, x) else s1
    ensures multiset(s1) == multiset(s0)[x := 1]
    ensures multiset(s2) == multiset(s0)[x := 0]
  {
    Seqs.NoDuplicatesCount(s0, x);
  }

  /**
   * `/subscribe C`, `/unsubscribe C`, `/subscribe C` from one sender leave
   * exactly one subscription of that sender to the key of C, and every other
   * subscription as it was before.
   */
  lemma SubscribeUnsubscribeSubscribe(cfg: Config, regs: Registries, chat: string, sender: string, c: string)
    ensures var o1 := Dispatch(cfg, regs, Inbound(chat, sender, CommandText(Subscribe, [c])));
      var o2 := Dispatch(cfg, o1.regs, Inbound(chat, sender, CommandText(Unsubscribe, [c])));
      var o3 := Dispatch(cfg, o2.regs, Inbound(chat, sender, CommandText(Subscribe, [c])));
      var sub := Subscription(NormalizeKey(c), sender);
      && multiset(o2.regs.subscriptions)[sub] == 0
      && multiset(o3.regs.subscriptions) == multiset(regs.subscriptions)[sub := 1]
  {
    var sub := Subscription(NormalizeKey(c), sender);
    SubscribeDispatch(cfg, regs, chat, sender, c);
    var o1 := Dispatch(cfg, regs, Inbound(chat, sender, CommandText(Subscribe, [c])));
    UnsubscribeDispatch(cfg, o1.regs, chat, sender, c);
    var o2 := Dispatch(cfg, o1.regs, Inbound(chat, sender, CommandText(Unsubscribe, [c])));
    SubscribeDispatch(cfg, o2.regs, chat, sender, c);
    var o3 := Dispatch(cfg, o2.regs, Inbound(chat, sender, CommandText(Subscribe, [c])));
    InsertRemoveInsert(regs.subscriptions, o1.regs.subscriptions, o2.regs.subscriptions, o3.regs.subscriptions, sub);
  }

  /** Insert-if-absent, remove, insert-if-absent on a sequence leaves exactly one copy. */
  lemma InsertRemoveInsert<T>(s0: seq<T>, s1: seq<T>, s2: seq<T>, s3: seq<T>, x: T)
    requires s1 == if x in s0 then s0 else s0 + [x]
    requires s2 == if x in s1 then Seqs.Remove(s1, x) else s1
    requires s3 == if x in s2 then s2 else s2 + [x]
    ensures multiset(s2)[x] == 0
    ensures multiset(s3) == multiset(s0)[x := 1]
  {
    assert x in s1;
    assert multiset(s2) == multiset(s0)[x := 0];
    assert x !in s2 by {
      assert multiset(s2)[x] == 0;
    }
  }
}
