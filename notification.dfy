/**
 * The customer notification `sendCustomerMessage` builds and fans out: a
 * customer record, the deadline guard, the four kinds of line, the text a
 * MarkdownV2 reader sees once the escapes are taken out (for fields without
 * a backslash), and the list of recipients.
 */
module Notification {
  import opened Wrappers
  import opened Text
  import opened Markdown
  import opened Registry

  /**
   * The fields `sendCustomerMessage` reads from its map: customer name, GEO
   * (may be null), row number, document link (may be null) and the deadline
   * already turned into text.
   */
  datatype CustomerInfo = CustomerInfo(
    customer: string,
    geo: Option<string>,
    row: int,
    documentLink: Option<string>,
    deadline: string)

  /** The text `formatDeadline` answers when it cannot produce a date. */
  const InvalidDate: string := "Неверная дата"

  /** U+1F3A7 (headphones), the first character of the header line. */
  const Headphones: char := '\U{1F3A7}'

  /** U+1F6D1 (stop sign), the first character of the deadline line. */
  const StopSign: char := '\U{1F6D1}'

  /** What a line looks like once the reader sees it. */
  const ResponsibleLabel: string := "Ответственный: @"
  const DocumentLabel: string := "Док: "

  /**
   * `formatDeadline`: a text shorter than ten characters is refused before
   * any parsing; otherwise `render` stands for the date parser and the
   * Russian formatter, with None for a parse failure.
   */
  function FormatDeadline(deadline: string, render: string -> Option<string>): (r: string)
    ensures |deadline| < 10 ==> r == InvalidDate
    ensures |deadline| >= 10 && render(deadline).Some? ==> r == render(deadline).value
    ensures r == InvalidDate || (|deadline| >= 10 && render(deadline) == Some(r))
  {
    if |deadline| < 10 then InvalidDate
    else match render(deadline)
      case None => InvalidDate
      case Some(d) => d
  }

  /** Java string concatenation of a possibly null String. */
  function GeoText(geo: Option<string>): string {
    match geo
    case None => "null"
    case Some(g) => g
  }

  /** The document line is written only for a link that is neither null nor empty. */
  predicate HasDocument(info: CustomerInfo) {
    info.documentLink.Some? && info.documentLink.value != ""
  }

  /** The customer key the registries are searched with. */
  function Key(info: CustomerInfo): string {
    NormalizeKey(info.customer)
  }

  /** The header before escaping: emoji, key, GEO and row number. */
  function HeaderText(info: CustomerInfo): (h: string)
    ensures h != [] && h[0] == Headphones
    ensures var d := IntToDecimal(info.row);
      |d| < |h| && h[|h| - |d|..] == d
  {
    [Headphones] + " " + Key(info) + " " + GeoText(info.geo) + " Строка: " + IntToDecimal(info.row)
  }

  /** The deadline line before escaping. */
  function DeadlineText(info: CustomerInfo, render: string -> Option<string>): string {
    [StopSign] + " " + FormatDeadline(info.deadline, render)
  }

  /**
   * The lines of the message as sent, without their line breaks: the header
   * escaped between bold markers, the escaped deadline, the responsible line
   * when the key has an assignment, the document line when there is a link.
   */
  function Lines(info: CustomerInfo, responsible: map<string, string>, render: string -> Option<string>): seq<string> {
    var key := Key(info);
    ["*" + EscapeMarkdown(HeaderText(info)) + "*", EscapeMarkdown(DeadlineText(info, render))]
    + (if key in responsible then [EscapeMarkdown(ResponsibleLabel) + EscapeMarkdown(responsible[key])] else [])
    + (if HasDocument(info) then [EscapeMarkdown(DocumentLabel) + EscapeMarkdown(info.documentLink.value)] else [])
  }

  /** The same lines as the reader sees them. */
  function ShownLines(info: CustomerInfo, responsible: map<string, string>, render: string -> Option<string>): seq<string> {
    var key := Key(info);
    ["*" + HeaderText(info) + "*", DeadlineText(info, render)]
    + (if key in responsible then [ResponsibleLabel + responsible[key]] else [])
    + (if HasDocument(info) then [DocumentLabel + info.documentLink.value] else [])
  }

  /** Every line followed by a line break, as the StringBuilder appends them. */
  function Compose(lines: seq<string>): string {
    if lines == [] then "" else lines[0] + "\n" + Compose(lines[1..])
  }

  /** Appending one more line and its break. */
  lemma {:induction false} ComposeSnoc(lines: seq<string>, line: string)
    ensures Compose(lines + [line]) == Compose(lines) + line + "\n"
  {
    if lines == [] {
      assert [] + [line] == [line];
    } else {
      assert (lines + [line])[1..] == lines[1..] + [line];
      ComposeSnoc(lines[1..], line);
    }
  }

  /** Appending a line made of two parts, then its break. */
  lemma ComposeSnocTwo(lines: seq<string>, a: string, b: string)
    ensures Compose(lines + [a + b]) == Compose(lines) + a + b + "\n"
  {
    ComposeSnoc(lines, a + b);
    assert Compose(lines) + (a + b) + "\n" == Compose(lines) + a + b + "\n";
  }

  /** The bold header line and the deadline line, as the StringBuilder appends them. */
  lemma FirstTwoLines(header: string, deadline: string)
    ensures "*" + header + "*\n" + deadline + "\n" == Compose(["*" + header + "*", deadline])
  {
    var lines := ["*" + header + "*", deadline];
    assert Compose(lines[1..]) == deadline + "\n";
    assert "*\n" == "*" + "\n";
  }

  /** The notification text. */
  function MessageText(info: CustomerInfo, responsible: map<string, string>, render: string -> Option<string>): string {
    Compose(Lines(info, responsible, render))
  }

  /**
   * The customer data contain no backslash: the name, the GEO, the rendered
   * deadline, the responsible tag of the key and the document link.
   */
  predicate WithoutBackslash(info: CustomerInfo, responsible: map<string, string>, render: string -> Option<string>) {
    && '\\' !in info.customer
    && (info.geo.Some? ==> '\\' !in info.geo.value)
    && '\\' !in FormatDeadline(info.deadline, render)
    && (Key(info) in responsible ==> '\\' !in responsible[Key(info)])
    && (info.documentLink.Some? ==> '\\' !in info.documentLink.value)
  }

  /** Then no text the message escapes contains a backslash either. */
  lemma EscapedPartsWithoutBackslash(info: CustomerInfo, responsible: map<string, string>, render: string -> Option<string>)
    requires WithoutBackslash(info, responsible, render)
    ensures '\\' !in HeaderText(info) && '\\' !in DeadlineText(info, render)
  {
    NormalizeKeyWithout(info.customer, '\\');
    var d := IntToDecimal(info.row);
    assert '\\' !in d by {
      forall k | 0 <= k < |d| ensures d[k] != '\\' {
        if k == 0 && info.row < 0 { assert d[0] == '-'; }
      }
    }
    assert '\\' !in GeoText(info.geo);
    assert '\\' !in " Строка: ";
  }

  lemma LabelsWithoutBackslash()
    ensures '\\' !in ResponsibleLabel && '\\' !in DocumentLabel
  {
  }

  /** Each sent line pairs up its backslashes and reads as the shown line beside it. */
  predicate ReadsAs(sent: seq<string>, shown: seq<string>) {
    |sent| == |shown| && forall k :: 0 <= k < |sent| ==> Paired(sent[k]) && Read(sent[k]) == shown[k]
  }

  lemma ReadsAsConcat(a: seq<string>, b: seq<string>, c: seq<string>, d: seq<string>)
    requires ReadsAs(a, c) && ReadsAs(b, d)
    ensures ReadsAs(a + b, c + d)
  {
    forall k | |a| <= k < |a + b| ensures Paired((a + b)[k]) && Read((a + b)[k]) == (c + d)[k] {
      assert (a + b)[k] == b[k - |a|] && (c + d)[k] == d[k - |a|];
    }
  }

  /** No line has markup. */
  predicate AllPlain(lines: seq<string>) {
    forall k :: 0 <= k < |lines| ==> Plain(lines[k])
  }

  lemma AllPlainConcat(a: seq<string>, b: seq<string>)
    requires AllPlain(a) && AllPlain(b)
    ensures AllPlain(a + b)
  {
    forall k | |a| <= k < |a + b| ensures Plain((a + b)[k]) {
      assert (a + b)[k] == b[k - |a|];
    }
  }

  /**
   * Reading the text a line at a time: if each sent line pairs up its
   * backslashes and reads as the line shown, the whole text reads as the
   * shown lines with their breaks.
   */
  lemma {:induction false} ReadText(sent: seq<string>, shown: seq<string>)
    requires ReadsAs(sent, shown)
    ensures Read(Compose(sent)) == Compose(shown)
  {
    if sent != [] {
      assert ReadsAs(sent[1..], shown[1..]) by {
        forall k | 0 <= k < |sent| - 1 ensures Paired(sent[1..][k]) && Read(sent[1..][k]) == shown[1..][k] {
          assert sent[1..][k] == sent[k + 1] && shown[1..][k] == shown[k + 1];
        }
      }
      ReadText(sent[1..], shown[1..]);
      var rest := Compose(sent[1..]);
      assert Paired(sent[0]) && Read(sent[0]) == shown[0];
      ReadConcat("\n", rest);
      ReadConcat(sent[0], "\n" + rest);
      assert sent[0] + "\n" + rest == sent[0] + ("\n" + rest);
      assert shown[0] + "\n" + Compose(shown[1..]) == shown[0] + ("\n" + Compose(shown[1..]));
    }
  }

  /** A line of two escaped parts without a backslash reads as the two parts and has no markup. */
  lemma ReadTwo(a: string, b: string)
    requires '\\' !in a && '\\' !in b
    ensures var line := EscapeMarkdown(a) + EscapeMarkdown(b);
      Plain(line) && Paired(line) && Read(line) == a + b
  {
    EscapeMarkdownWithoutBackslash(a);
    EscapeMarkdownWithoutBackslash(b);
    PlainConcat(EscapeMarkdown(a), EscapeMarkdown(b));
    PlainIsPaired(EscapeMarkdown(a) + EscapeMarkdown(b));
    PlainIsPaired(EscapeMarkdown(a));
    ReadConcat(EscapeMarkdown(a), EscapeMarkdown(b));
  }

  /** The bold header reads as the header between the two markers. */
  lemma ReadHeader(h: string)
    requires '\\' !in h
    ensures var line := "*" + EscapeMarkdown(h) + "*";
      Paired(line) && Read(line) == "*" + h + "*"
  {
    var e := EscapeMarkdown(h);
    EscapeMarkdownWithoutBackslash(h);
    PlainIsPaired(e);
    assert Paired("*") && Read("*") == "*";
    ReadConcat("*", e);
    PairedConcat("*", e);
    ReadConcat("*" + e, "*");
    PairedConcat("*" + e, "*");
  }

  /** The optional line of a label and a value, escaped as sent and as shown. */
  function OptionalSent(present: bool, caption: string, value: string): seq<string> {
    if present then [EscapeMarkdown(caption) + EscapeMarkdown(value)] else []
  }

  function OptionalShown(present: bool, caption: string, value: string): seq<string> {
    if present then [caption + value] else []
  }

  lemma OptionalLineReads(present: bool, caption: string, value: string)
    requires present ==> '\\' !in caption && '\\' !in value
    ensures ReadsAs(OptionalSent(present, caption, value), OptionalShown(present, caption, value))
    ensures AllPlain(OptionalSent(present, caption, value))
  {
    if present {
      ReadTwo(caption, value);
    }
  }

  /** The lines, cut into the two fixed ones and the two optional ones. */
  lemma LinesParts(info: CustomerInfo, responsible: map<string, string>, render: string -> Option<string>)
    ensures var key := Key(info);
      var link := if HasDocument(info) then info.documentLink.value else "";
      var tag := if key in responsible then responsible[key] else "";
      && Lines(info, responsible, render) ==
        ["*" + EscapeMarkdown(HeaderText(info)) + "*", EscapeMarkdown(DeadlineText(info, render))]
        + OptionalSent(key in responsible, ResponsibleLabel, tag)
        + OptionalSent(HasDocument(info), DocumentLabel, link)
      && ShownLines(info, responsible, render) ==
        ["*" + HeaderText(info) + "*", DeadlineText(info, render)]
        + OptionalShown(key in responsible, ResponsibleLabel, tag)
        + OptionalShown(HasDocument(info), DocumentLabel, link)
  {
  }

  /**
   * What a MarkdownV2 reader of the notification sees when no field holds a
   * backslash: the escapes taken out, the text is exactly the shown lines,
   * each with its line break, so no customer name, GEO, deadline, tag or
   * link turns into markup or swallows a neighbouring character.
   */
  lemma MessageReadsAsShown(info: CustomerInfo, responsible: map<string, string>, render: string -> Option<string>)
    requires WithoutBackslash(info, responsible, render)
    ensures Read(MessageText(info, responsible, render)) == Compose(ShownLines(info, responsible, render))
  {
    var key := Key(info);
    var link := if HasDocument(info) then info.documentLink.value else "";
    var tag := if key in responsible then responsible[key] else "";
    var header, deadline := HeaderText(info), DeadlineText(info, render);
    EscapedPartsWithoutBackslash(info, responsible, render);
    LabelsWithoutBackslash();
    ReadHeader(header);
    EscapeMarkdownWithoutBackslash(deadline);
    PlainIsPaired(EscapeMarkdown(deadline));
    var fixedSent := ["*" + EscapeMarkdown(header) + "*", EscapeMarkdown(deadline)];
    var fixedShown := ["*" + header + "*", deadline];
    assert ReadsAs(fixedSent, fixedShown);
    OptionalLineReads(key in responsible, ResponsibleLabel, tag);
    OptionalLineReads(HasDocument(info), DocumentLabel, link);
    ReadsAsConcat(fixedSent, OptionalSent(key in responsible, ResponsibleLabel, tag),
                  fixedShown, OptionalShown(key in responsible, ResponsibleLabel, tag));
    ReadsAsConcat(fixedSent + OptionalSent(key in responsible, ResponsibleLabel, tag),
                  OptionalSent(HasDocument(info), DocumentLabel, link),
                  fixedShown + OptionalShown(key in responsible, ResponsibleLabel, tag),
                  OptionalShown(HasDocument(info), DocumentLabel, link));
    LinesParts(info, responsible, render);
    ReadText(Lines(info, responsible, render), ShownLines(info, responsible, render));
  }

  /**
   * The markup of the message when no field holds a backslash: the header
   * line is the two bold markers around text without markup, and every other
   * line has no markup at all.
   */
  lemma LinesMarkup(info: CustomerInfo, responsible: map<string, string>, render: string -> Option<string>)
    requires WithoutBackslash(info, responsible, render)
    ensures var lines := Lines(info, responsible, render);
      && lines[0] == "*" + EscapeMarkdown(HeaderText(info)) + "*"
      && Plain(EscapeMarkdown(HeaderText(info)))
      && forall k :: 1 <= k < |lines| ==> Plain(lines[k])
  {
    var key := Key(info);
    var link := if HasDocument(info) then info.documentLink.value else "";
    var tag := if key in responsible then responsible[key] else "";
    var header, deadline := HeaderText(info), DeadlineText(info, render);
    EscapedPartsWithoutBackslash(info, responsible, render);
    LabelsWithoutBackslash();
    EscapeMarkdownWithoutBackslash(header);
    EscapeMarkdownWithoutBackslash(deadline);
    OptionalLineReads(key in responsible, ResponsibleLabel, tag);
    OptionalLineReads(HasDocument(info), DocumentLabel, link);
    LinesParts(info, responsible, render);
    PlainAfterFirst("*" + EscapeMarkdown(header) + "*", EscapeMarkdown(deadline),
                    OptionalSent(key in responsible, ResponsibleLabel, tag),
                    OptionalSent(HasDocument(info), DocumentLabel, link));
  }

  lemma PlainAfterFirst(first: string, second: string, b: seq<string>, c: seq<string>)
    requires Plain(second) && AllPlain(b) && AllPlain(c)
    ensures var lines := [first, second] + b + c;
      lines[0] == first && forall k :: 1 <= k < |lines| ==> Plain(lines[k])
  {
    var lines := [first, second] + b + c;
    forall k | 1 <= k < |lines| ensures Plain(lines[k]) {
      if 2 <= k < 2 + |b| {
        assert lines[k] == b[k - 2];
      } else if k >= 2 + |b| {
        assert lines[k] == c[k - 2 - |b|];
      }
    }
  }

  /** Some shown line starts with the given label. */
  predicate HasLine(lines: seq<string>, prefix: string) {
    exists k :: 0 <= k < |lines| && StartsWith(lines[k], prefix)
  }

  /**
   * The responsible line is shown exactly when the customer key has an
   * assignment, and the document line exactly when the link is neither null
   * nor empty.
   */
  lemma OptionalLines(info: CustomerInfo, responsible: map<string, string>, render: string -> Option<string>)
    ensures HasLine(ShownLines(info, responsible, render), ResponsibleLabel) <==> Key(info) in responsible
    ensures HasLine(ShownLines(info, responsible, render), DocumentLabel) <==> HasDocument(info)
  {
    var key := Key(info);
    var link := if HasDocument(info) then info.documentLink.value else "";
    var tag := if key in responsible then responsible[key] else "";
    var fixed := ["*" + HeaderText(info) + "*", DeadlineText(info, render)];
    LinesParts(info, responsible, render);
    assert fixed[0][0] == '*' && fixed[1][0] == StopSign;
    assert ResponsibleLabel[0] == 'О' && DocumentLabel[0] == 'Д';
    var resp := OptionalShown(key in responsible, ResponsibleLabel, tag);
    var doc := OptionalShown(HasDocument(info), DocumentLabel, link);
    HasLineAfterFixed(fixed, resp, doc, ResponsibleLabel);
    HasLineAfterFixed(fixed, resp, doc, DocumentLabel);
    HasLineOptional(key in responsible, ResponsibleLabel, tag, ResponsibleLabel);
    HasLineOptional(key in responsible, ResponsibleLabel, tag, DocumentLabel);
    HasLineOptional(HasDocument(info), DocumentLabel, link, ResponsibleLabel);
    HasLineOptional(HasDocument(info), DocumentLabel, link, DocumentLabel);
  }

  /** Lines that cannot start with the label do not change whether some line does. */
  lemma HasLineAfterFixed(fixed: seq<string>, a: seq<string>, b: seq<string>, prefix: string)
    requires prefix != []
    requires forall k :: 0 <= k < |fixed| ==> fixed[k] != [] && fixed[k][0] != prefix[0]
    ensures HasLine(fixed + a + b, prefix) <==> HasLine(a, prefix) || HasLine(b, prefix)
  {
    var lines := fixed + a + b;
    if HasLine(lines, prefix) {
      var k :| 0 <= k < |lines| && StartsWith(lines[k], prefix);
      if |fixed| <= k < |fixed| + |a| {
        assert StartsWith(a[k - |fixed|], prefix);
      } else if k >= |fixed| + |a| {
        assert StartsWith(b[k - |fixed| - |a|], prefix);
      }
    }
    if HasLine(a, prefix) {
      var k :| 0 <= k < |a| && StartsWith(a[k], prefix);
      assert lines[|fixed| + k] == a[k];
    }
    if HasLine(b, prefix) {
      var k :| 0 <= k < |b| && StartsWith(b[k], prefix);
      assert lines[|fixed| + |a| + k] == b[k];
    }
  }

  /** An optional line starts with its own caption, and with no caption of another first letter. */
  lemma HasLineOptional(present: bool, caption: string, value: string, prefix: string)
    requires prefix != [] && caption != []
    requires caption == prefix || caption[0] != prefix[0]
    ensures HasLine(OptionalShown(present, caption, value), prefix) <==> present && caption == prefix
  {
    var lines := OptionalShown(present, caption, value);
    if present {
      assert lines[0] == caption + value;
      if caption == prefix {
        assert lines[0][..|prefix|] == prefix;
      } else {
        assert lines[0][0] == caption[0];
      }
    }
  }

  /**
   * Who is notified, in order: every moderator in `findAll` order, every
   * subscriber of the customer key in storage order, then the group.
   */
  function Recipients(cfg: Config, regs: Registries, key: string): (to: seq<string>)
    ensures |to| == |regs.moderators| + |SubscriptionsFor(regs.subscriptions, key)| + 1
    ensures to[..|regs.moderators|] == regs.moderators && to[|to| - 1] == cfg.groupId
  {
    regs.moderators + TelegramIds(SubscriptionsFor(regs.subscriptions, key)) + [cfg.groupId]
  }

  /** One message with the same text to each id, in order. */
  function Broadcast(ids: seq<string>, text: string): (out: seq<Send>)
    ensures |out| == |ids|
    ensures forall k :: 0 <= k < |ids| ==> out[k] == Send(ids[k], text)
  {
    seq(|ids|, k requires 0 <= k < |ids| => Send(ids[k], text))
  }

  /** Broadcasting to two lists of ids in turn is broadcasting to both. */
  lemma BroadcastConcat(a: seq<string>, b: seq<string>, text: string)
    ensures Broadcast(a + b, text) == Broadcast(a, text) + Broadcast(b, text)
  {
    var l, r := Broadcast(a + b, text), Broadcast(a, text) + Broadcast(b, text);
    forall k | 0 <= k < |l| ensures l[k] == r[k] {
      if k >= |a| { assert (a + b)[k] == b[k - |a|]; }
    }
  }

  /** The messages `sendCustomerMessage` hands to the transport. */
  function Notify(cfg: Config, regs: Registries, info: CustomerInfo, render: string -> Option<string>): seq<Send> {
    Broadcast(Recipients(cfg, regs, Key(info)), MessageText(info, regs.responsible, render))
  }

  /** The notification as the three loops of `sendCustomerMessage` send it. */
  lemma NotifyParts(cfg: Config, regs: Registries, info: CustomerInfo, render: string -> Option<string>)
    ensures var text := MessageText(info, regs.responsible, render);
      Notify(cfg, regs, info, render) ==
      Broadcast(regs.moderators, text) + Broadcast(TelegramIds(SubscriptionsFor(regs.subscriptions, Key(info))), text)
      + [Send(cfg.groupId, text)]
  {
    var text := MessageText(info, regs.responsible, render);
    var ids := TelegramIds(SubscriptionsFor(regs.subscriptions, Key(info)));
    BroadcastConcat(regs.moderators, ids, text);
    BroadcastConcat(regs.moderators + ids, [cfg.groupId], text);
  }

  /**
   * The fan-out: one message per moderator, per subscription of the key and
   * for the group, all with the same text, moderators first, the group last.
   */
  lemma NotifyFanOut(cfg: Config, regs: Registries, info: CustomerInfo, render: string -> Option<string>)
    ensures var out := Notify(cfg, regs, info, render);
      var subs := SubscriptionsFor(regs.subscriptions, Key(info));
      var m := |regs.moderators|;
      && |out| == m + |subs| + 1
      && (forall k :: 0 <= k < |out| ==> out[k].text == MessageText(info, regs.responsible, render))
      && (forall k :: 0 <= k < m ==> out[k].chatId == regs.moderators[k])
      && (forall k :: 0 <= k < |subs| ==> out[m + k].chatId == subs[k].telegramId)
      && out[|out| - 1].chatId == cfg.groupId
  {
    var subs := SubscriptionsFor(regs.subscriptions, Key(info));
    BroadcastThree(regs.moderators, subs, cfg.groupId, MessageText(info, regs.responsible, render));
  }

  lemma BroadcastThree(first: seq<string>, subs: seq<Subscription>, last: string, text: string)
    ensures var out := Broadcast(first + TelegramIds(subs) + [last], text);
      var m := |first|;
      && |out| == m + |subs| + 1
      && (forall k :: 0 <= k < |out| ==> out[k].text == text)
      && (forall k :: 0 <= k < m ==> out[k].chatId == first[k])
      && (forall k :: 0 <= k < |subs| ==> out[m + k].chatId == subs[k].telegramId)
      && out[|out| - 1].chatId == last
  {
    var to := first + TelegramIds(subs) + [last];
    var out := Broadcast(to, text);
    var m := |first|;
    forall k | 0 <= k < |subs| ensures out[m + k].chatId == subs[k].telegramId {
      assert to[m + k] == TelegramIds(subs)[k];
    }
  }

  /** Some message of the list goes to this chat id. */
  predicate SentTo(out: seq<Send>, id: string) {
    exists k :: 0 <= k < |out| && out[k].chatId == id
  }

  /**
   * An id is sent the notification exactly when it is a moderator, has a
   * subscription to the customer key, or is the group.
   */
  lemma NotifyReaches(cfg: Config, regs: Registries, info: CustomerInfo, render: string -> Option<string>, id: string)
    ensures SentTo(Notify(cfg, regs, info, render), id) <==> id in regs.moderators || Subscription(Key(info), id) in regs.subscriptions || id == cfg.groupId
  {
    var to := Recipients(cfg, regs, Key(info));
    SubscriberIdsMembership(regs.subscriptions, Key(info), id);
    BroadcastReaches(to, MessageText(info, regs.responsible, render), id);
  }

  /** A broadcast reaches exactly the ids it is given. */
  lemma BroadcastReaches(ids: seq<string>, text: string, id: string)
    ensures SentTo(Broadcast(ids, text), id) <==> id in ids
  {
    var out := Broadcast(ids, text);
    if id in ids {
      var k :| 0 <= k < |ids| && ids[k] == id;
      assert out[k].chatId == id;
    }
  }

  /**
   * No deduplication: an id is sent the notification once per moderator
   * record, once per subscription, and once more if it is the group.
   */
  lemma NotifyCounts(cfg: Config, regs: Registries, key: string)
    ensures multiset(Recipients(cfg, regs, key)) ==
      multiset(regs.moderators) + multiset(TelegramIds(SubscriptionsFor(regs.subscriptions, key))) + multiset{cfg.groupId}
  {
  }
}
