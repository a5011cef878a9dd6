/**
 * The bot service itself: the registries it updates through the handlers,
 * and every message it hands to the chat transport, recorded in order in an
 * outbox. Each handler runs its branches step by step and is proved to leave
 * exactly the registries and the reply the functions of module Commands
 * describe; the customer notification is built by appends and sent by loops,
 * and is proved to send exactly what module Notification describes.
 */
module Service {
  import opened Wrappers
  import opened Text
  import opened Markdown
  import opened Registry
  import opened Commands
  import opened Notification
  import Seqs

  class TelegramBotService {
    /** The configured admin id and group chat id. */
    const adminId: string
    const groupId: string
    /** The date parser and Russian formatter `formatDeadline` calls, None for a parse failure. */
    const renderDate: string -> Option<string>

    /** Moderator telegram ids, in `findAll` order. */
    var moderators: seq<string>
    /** The responsible-party tag stored for each customer key. */
    var responsible: map<string, string>
    /** The subscriptions, in storage order. */
    var subscriptions: seq<Subscription>
    /** Every message sent so far, oldest first. */
    var outbox: seq<Send>

    function Settings(): Config {
      Config(adminId, groupId)
    }

    function Regs(): Registries
      reads this
    {
      Registries(moderators, responsible, subscriptions)
    }

    /** A service over the given configuration and stored registries that has sent nothing yet. */
    constructor (cfg: Config, regs: Registries, renderDate: string -> Option<string>)
      ensures Settings() == cfg && this.renderDate == renderDate
      ensures Regs() == regs && outbox == []
    {
      adminId := cfg.adminId;
      groupId := cfg.groupId;
      this.renderDate := renderDate;
      moderators := regs.moderators;
      responsible := regs.responsible;
      subscriptions := regs.subscriptions;
      outbox := [];
    }

    /** `sendMessage`: one message handed to the transport. */
    method SendMessage(chatId: string, text: string)
      modifies this
      ensures outbox == old(outbox) + [Send(chatId, text)]
      ensures Regs() == old(Regs())
    {
      outbox := outbox + [Send(chatId, text)];
    }

    method HandleSetResponsibleCommand(m: Inbound)
      modifies this
      ensures var e := HandleSetResponsible(Settings(), old(Regs()), m);
        Regs() == e.regs && outbox == old(outbox) + [Send(m.chatId, ReplyText(e.reply))]
    {
      if !IsModeratorOrAdmin(Settings(), Regs(), m.senderId) {
        SendMessage(m.chatId, ReplyText(DeniedAssignResponsible));
        return;
      }
      var parts := Split(m.text, 3);
      if |parts| == 3 {
        var customer := NormalizeKey(parts[1]);
        var tag := parts[2];
        // a new assignment, or the existing one overwritten
        responsible := responsible[customer := tag];
        SendMessage(m.chatId, ReplyText(ResponsibleSet(parts[1], tag)));
      } else {
        SendMessage(m.chatId, ReplyText(Usage(SetResponsible)));
      }
    }

    method HandleUnsetResponsibleCommand(m: Inbound)
      modifies this
      ensures var e := HandleUnsetResponsible(Settings(), old(Regs()), m);
        Regs() == e.regs && outbox == old(outbox) + [Send(m.chatId, ReplyText(e.reply))]
    {
      if !IsModeratorOrAdmin(Settings(), Regs(), m.senderId) {
        SendMessage(m.chatId, ReplyText(DeniedRemoveResponsible));
        return;
      }
      var parts := Split(m.text, 2);
      if |parts| == 2 {
        var customer := NormalizeKey(parts[1]);
        if customer in responsible {
          responsible := responsible - {customer};
          SendMessage(m.chatId, ReplyText(ResponsibleRemoved(parts[1])));
        } else {
          SendMessage(m.chatId, ReplyText(ResponsibleNotFound(parts[1])));
        }
      } else {
        SendMessage(m.chatId, ReplyText(Usage(UnsetResponsible)));
      }
    }

    method HandleSetModeratorCommand(m: Inbound)
      modifies this
      ensures var e := HandleSetModerator(Settings(), old(Regs()), m);
        Regs() == e.regs && outbox == old(outbox) + [Send(m.chatId, ReplyText(e.reply))]
    {
      if !IsAdmin(Settings(), m.senderId) {
        SendMessage(m.chatId, ReplyText(DeniedAssignModerator));
        return;
      }
      var parts := Split(m.text, 2);
      if |parts| == 2 {
        var telegramId := parts[1];
        if telegramId !in moderators {
          moderators := moderators + [telegramId];
          SendMessage(m.chatId, ReplyText(ModeratorAdded(telegramId)));
        } else {
          SendMessage(m.chatId, ReplyText(ModeratorExists(telegramId)));
        }
      } else {
        SendMessage(m.chatId, ReplyText(Usage(SetModerator)));
      }
    }

    method HandleUnsetModeratorCommand(m: Inbound)
      modifies this
      ensures var e := HandleUnsetModerator(Settings(), old(Regs()), m);
        Regs() == e.regs && outbox == old(outbox) + [Send(m.chatId, ReplyText(e.reply))]
    {
      if !IsAdmin(Settings(), m.senderId) {
        SendMessage(m.chatId, ReplyText(DeniedRemoveModerator));
        return;
      }
      var parts := Split(m.text, 2);
      if |parts| == 2 {
        var telegramId := parts[1];
        if telegramId in moderators {
          moderators := Seqs.Remove(moderators, telegramId);
          SendMessage(m.chatId, ReplyText(ModeratorRemoved(telegramId)));
        } else {
          SendMessage(m.chatId, ReplyText(ModeratorNotFound(telegramId)));
        }
      } else {
        SendMessage(m.chatId, ReplyText(Usage(UnsetModerator)));
      }
    }

    method HandleSubscribeCommand(m: Inbound)
      modifies this
      ensures var e := HandleSubscribe(old(Regs()), m);
        Regs() == e.regs && outbox == old(outbox) + [Send(m.chatId, ReplyText(e.reply))]
    {
      var parts := Split(m.text, 2);
      if |parts| == 2 {
        var customer := NormalizeKey(parts[1]);
        var subscription := Subscription(customer, m.senderId);
        if subscription !in subscriptions {
          subscriptions := subscriptions + [subscription];
          SendMessage(m.chatId, ReplyText(Subscribed(customer)));
        } else {
          SendMessage(m.chatId, ReplyText(AlreadySubscribed(customer)));
        }
      } else {
        SendMessage(m.chatId, ReplyText(Usage(Subscribe)));
      }
    }

    method HandleUnsubscribeCommand(m: Inbound)
      modifies this
      ensures var e := HandleUnsubscribe(old(Regs()), m);
        Regs() == e.regs && outbox == old(outbox) + [Send(m.chatId, ReplyText(e.reply))]
    {
      var parts := Split(m.text, 2);
      if |parts| == 2 {
        var customer := NormalizeKey(parts[1]);
        var subscription := Subscription(customer, m.senderId);
        if subscription in subscriptions {
          subscriptions := Seqs.Remove(subscriptions, subscription);
          SendMessage(m.chatId, ReplyText(Unsubscribed(customer)));
        } else {
          SendMessage(m.chatId, ReplyText(NotSubscribed(customer)));
        }
      } else {
        SendMessage(m.chatId, ReplyText(Usage(Unsubscribe)));
      }
    }

    method HandleGetMyIdCommand(m: Inbound)
      modifies this
      ensures Regs() == old(Regs())
      ensures outbox == old(outbox) + [Send(m.chatId, ReplyText(YourId(m.senderId)))]
    {
      SendMessage(m.chatId, ReplyText(YourId(m.senderId)));
    }

    method HandleHelpCommand(m: Inbound)
      modifies this
      ensures Regs() == old(Regs())
      ensures outbox == old(outbox) + [Send(m.chatId, ReplyText(HelpList))]
    {
      SendMessage(m.chatId, ReplyText(HelpList));
    }

    /**
     * `onUpdateReceived`: a text message is handed to the handler of the
     * first command name it starts with (the chain of prefix tests is
     * `Route`); anything else is ignored.
     */
    method OnUpdateReceived(u: Update)
      modifies this
      ensures var o := Step(Settings(), old(Regs()), u);
        Regs() == o.regs && outbox == old(outbox) + o.sends
    {
      if u.message.Some? && u.message.value.text.Some? {
        var msg := u.message.value;
        var m := Inbound(msg.chatId, msg.senderId, msg.text.value);
        ghost var regs0 := Regs();
        match Route(m.text) {
          case Some(SetResponsible) =>
            DispatchEffect(Settings(), regs0, m, SetResponsible, HandleSetResponsible(Settings(), regs0, m));
            HandleSetResponsibleCommand(m);
          case Some(UnsetResponsible) =>
            DispatchEffect(Settings(), regs0, m, UnsetResponsible, HandleUnsetResponsible(Settings(), regs0, m));
            HandleUnsetResponsibleCommand(m);
          case Some(SetModerator) =>
            DispatchEffect(Settings(), regs0, m, SetModerator, HandleSetModerator(Settings(), regs0, m));
            HandleSetModeratorCommand(m);
          case Some(UnsetModerator) =>
            DispatchEffect(Settings(), regs0, m, UnsetModerator, HandleUnsetModerator(Settings(), regs0, m));
            HandleUnsetModeratorCommand(m);
          case Some(Subscribe) =>
            DispatchEffect(Settings(), regs0, m, Subscribe, HandleSubscribe(regs0, m));
            HandleSubscribeCommand(m);
          case Some(Unsubscribe) =>
            DispatchEffect(Settings(), regs0, m, Unsubscribe, HandleUnsubscribe(regs0, m));
            HandleUnsubscribeCommand(m);
          case Some(GetMyId) =>
            DispatchEffect(Settings(), regs0, m, GetMyId, Effect(regs0, YourId(m.senderId)));
            HandleGetMyIdCommand(m);
          case Some(Help) =>
            DispatchEffect(Settings(), regs0, m, Help, Effect(regs0, HelpList));
            HandleHelpCommand(m);
          case None =>
        }
      }
    }

    /**
     * The text of the customer notification, appended piece by piece as the
     * StringBuilder of `sendCustomerMessage` does.
     */
    method BuildMessageText(info: CustomerInfo) returns (text: string)
      ensures text == MessageText(info, responsible, renderDate)
    {
      var customer := NormalizeKey(info.customer);
      var formattedDeadline := FormatDeadline(info.deadline, renderDate);
      var header := [Headphones] + " " + customer + " " + GeoText(info.geo) + " Строка: " + IntToDecimal(info.row);
      text := "*" + EscapeMarkdown(header) + "*\n" + EscapeMarkdown([StopSign] + " " + formattedDeadline) + "\n";
      ghost var lines := ["*" + EscapeMarkdown(header) + "*", EscapeMarkdown([StopSign] + " " + formattedDeadline)];
      FirstTwoLines(EscapeMarkdown(header), EscapeMarkdown([StopSign] + " " + formattedDeadline));
      if customer in responsible {
        ComposeSnocTwo(lines, EscapeMarkdown(ResponsibleLabel), EscapeMarkdown(responsible[customer]));
        text := text + EscapeMarkdown(ResponsibleLabel) + EscapeMarkdown(responsible[customer]) + "\n";
        lines := lines + [EscapeMarkdown(ResponsibleLabel) + EscapeMarkdown(responsible[customer])];
      }
      if info.documentLink.Some? && info.documentLink.value != "" {
        ComposeSnocTwo(lines, EscapeMarkdown(DocumentLabel), EscapeMarkdown(info.documentLink.value));
        text := text + EscapeMarkdown(DocumentLabel) + EscapeMarkdown(info.documentLink.value) + "\n";
        lines := lines + [EscapeMarkdown(DocumentLabel) + EscapeMarkdown(info.documentLink.value)];
      }
      assert lines == Lines(info, responsible, renderDate);
    }

    /** The loop over the moderator chat ids: the same text to each, in order. */
    method SendToModerators(chatIds: seq<string>, text: string)
      modifies this
      ensures Regs() == old(Regs())
      ensures outbox == old(outbox) + Broadcast(chatIds, text)
    {
      var i := 0;
      while i < |chatIds|
        invariant 0 <= i <= |chatIds|
        invariant Regs() == old(Regs())
        invariant outbox == old(outbox) + Broadcast(chatIds[..i], text)
      {
        assert chatIds[..i + 1] == chatIds[..i] + [chatIds[i]];
        BroadcastConcat(chatIds[..i], [chatIds[i]], text);
        SendMessage(chatIds[i], text);
        i := i + 1;
      }
      assert chatIds[..i] == chatIds;
    }

    /** The loop over the subscriptions found for the customer: the same text to each subscriber, in order. */
    method SendToSubscribers(subs: seq<Subscription>, text: string)
      modifies this
      ensures Regs() == old(Regs())
      ensures outbox == old(outbox) + Broadcast(TelegramIds(subs), text)
    {
      var j := 0;
      while j < |subs|
        invariant 0 <= j <= |subs|
        invariant Regs() == old(Regs())
        invariant outbox == old(outbox) + Broadcast(TelegramIds(subs[..j]), text)
      {
        assert TelegramIds(subs[..j + 1]) == TelegramIds(subs[..j]) + [subs[j].telegramId];
        BroadcastConcat(TelegramIds(subs[..j]), [subs[j].telegramId], text);
        SendMessage(subs[j].telegramId, text);
        j := j + 1;
      }
      assert subs[..j] == subs;
    }

    /**
     * `sendCustomerMessage`: the text is built once, then sent to every
     * moderator, every subscriber of the customer key and the group; the
     * registries are only read.
     */
    method SendCustomerMessage(info: CustomerInfo)
      modifies this
      ensures Regs() == old(Regs())
      ensures outbox == old(outbox) + Notify(Settings(), old(Regs()), info, renderDate)
    {
      ghost var sent0 := outbox;
      var finalMessage := BuildMessageText(info);
      var moderatorChatIds := moderators;
      SendToModerators(moderatorChatIds, finalMessage);
      ghost var toModerators := Broadcast(moderatorChatIds, finalMessage);
      var subs := SubscriptionsFor(subscriptions, NormalizeKey(info.customer));
      SendToSubscribers(subs, finalMessage);
      ghost var toSubscribers := Broadcast(TelegramIds(subs), finalMessage);
      SendMessage(groupId, finalMessage);
      assert outbox == sent0 + toModerators + toSubscribers + [Send(groupId, finalMessage)];
      Seqs.AppendAssoc3(sent0, toModerators, toSubscribers, [Send(groupId, finalMessage)]);
      NotifyParts(Settings(), Regs(), info, renderDate);
    }
  }

  /**
   * After `/subscribe C`, the next notification about a customer whose key
   * is that of C reaches the sender, whoever sent the command.
   */
  lemma SubscriberIsNotified(cfg: Config, regs: Registries, chat: string, sender: string, c: string,
                             info: CustomerInfo, render: string -> Option<string>)
    requires Key(info) == NormalizeKey(c)
    ensures var o := Dispatch(cfg, regs, Inbound(chat, sender, CommandText(Subscribe, [c])));
      SentTo(Notify(cfg, o.regs, info, render), sender)
  {
    var o := Dispatch(cfg, regs, Inbound(chat, sender, CommandText(Subscribe, [c])));
    SubscribeDispatch(cfg, regs, chat, sender, c);
    assert Subscription(Key(info), sender) in o.regs.subscriptions;
    NotifyReaches(cfg, o.regs, info, render, sender);
  }

  /**
   * After `/unsubscribe C`, the next notification about a customer whose key
   * is that of C reaches the sender only as a moderator or as the group.
   */
  lemma UnsubscriberIsNotNotified(cfg: Config, regs: Registries, chat: string, sender: string, c: string,
                                  info: CustomerInfo, render: string -> Option<string>)
    requires Key(info) == NormalizeKey(c)
    ensures var o := Dispatch(cfg, regs, Inbound(chat, sender, CommandText(Unsubscribe, [c])));
      SentTo(Notify(cfg, o.regs, info, render), sender) <==> sender in regs.moderators || sender == cfg.groupId
  {
    var o := Dispatch(cfg, regs, Inbound(chat, sender, CommandText(Unsubscribe, [c])));
    var sub := Subscription(Key(info), sender);
    UnsubscribeDispatch(cfg, regs, chat, sender, c);
    assert o.regs.moderators == regs.moderators;
    assert multiset(o.regs.subscriptions)[sub] == 0;
    NotifyReaches(cfg, o.regs, info, render, sender);
  }
}
