# ACS service bot: command router and customer notifications

A Dafny model of `TelegramBotService`, the Telegram bot behind the ACS
service. The bot keeps three registries:

- moderators, by telegram id;
- the responsible party (a Telegram tag) assigned to each customer;
- subscriptions of chat users to customers.

The bot handles eight chat commands. The two responsible-party commands need
the configured admin or a moderator, the two moderator commands need the
admin, and `/subscribe`, `/unsubscribe`, `/getmyid` and `/help` are open to
any sender. Each command changes at most one registry and answers with
exactly one MarkdownV2-escaped reply. The bot also builds a customer
notification and sends it to every moderator, every subscriber of the
customer and the configured group.

Modules:

- `Wrappers`: `Option`.
- `Seqs`: duplicate-free sequences and removal.
- `Text`: the pieces of `java.lang.String` the bot relies on:
  - `startsWith`;
  - `split(" ", limit)` for a positive limit;
  - `trim`;
  - upper-casing;
  - `Integer.toString`;
  - the customer key `toUpperCase().trim()`.
- `Markdown`: `escapeMarkdown`, a chain of eighteen `replace` calls. It is proved equal to escaping one character at a time. Also:
  - `Unescape`, the inverse of the escaper;
  - `Read`, how a MarkdownV2 reader takes escapes out: a backslash followed by any character of code 1 to 126 stands for that character;
  - `Plain`, text in which MarkdownV2 finds no markup;
  - a corrected escaper that also doubles backslashes (see Findings).
- `Registry`: the registries as values, the configuration, `isAdmin`, `isModeratorOrAdmin` and the repository finders.
- `Commands`: each handler as a function from the registries and a message to the new registries and its reply. Routing. The router's properties.
- `Notification`: what `sendCustomerMessage` builds and to whom it sends it:
  - the customer record;
  - the deadline guard;
  - the lines of the message;
  - the text the reader sees;
  - the recipients.
- `Service`: the class `TelegramBotService`. Its fields are the registries and an outbox of sent messages. Its handler methods run the Java branches step by step. `sendCustomerMessage` appends the text and loops over the recipients. Every method is proved to do exactly what the functions in `Commands` and `Notification` describe.

Paths below are relative to the repository root; every cited line is in
`src/main/java/com/acs/tgbot/`.

## Model

| member | source | states |
|---|---|---|
| Text.FirstSpace | src/main/java/com/acs/tgbot/TelegramBotService.java:95 | the position of the first space (the length when there is none): no space before it, a space at it |
| Text.Split | src/main/java/com/acs/tgbot/TelegramBotService.java:95 | `split(" ", limit)` yields between one and `limit` pieces |
| Text.SplitPieces | src/main/java/com/acs/tgbot/TelegramBotService.java:95 | no piece but the last holds a space; the last holds none when fewer than `limit` pieces came out |
| Text.JoinSplit | src/main/java/com/acs/tgbot/TelegramBotService.java:95 | joining the pieces with single spaces gives back the text, so the split loses nothing |
| Text.SplitJoin | src/main/java/com/acs/tgbot/TelegramBotService.java:95 | conversely, any pieces obeying the split contract are what splitting their join yields |
| Text.TrimStartSpec | src/main/java/com/acs/tgbot/TelegramBotService.java:97 | `trim` drops exactly the leading run of characters at or below the space |
| Text.TrimEndSpec | src/main/java/com/acs/tgbot/TelegramBotService.java:97 | `trim` drops exactly the trailing run of characters at or below the space |
| Text.TrimEnds | src/main/java/com/acs/tgbot/TelegramBotService.java:97 | trimmed text starts and ends with a non-trimmable character |
| Text.ToUpper | src/main/java/com/acs/tgbot/TelegramBotService.java:97 | upper-casing keeps the length, maps each character by `UpperChar` and leaves no lower-case ASCII letter |
| Text.ToUpperIdempotent | src/main/java/com/acs/tgbot/TelegramBotService.java:97 | upper-casing twice is upper-casing once |
| Text.NormalizeKeyIdempotent | src/main/java/com/acs/tgbot/TelegramBotService.java:97 | the customer key of a customer key is itself, so keys stored by one command match keys computed by later ones |
| Text.NormalizeKeyWithout | src/main/java/com/acs/tgbot/TelegramBotService.java:97 | a character the name lacks, and which is not an upper-case letter, is not in its customer key either |
| Text.IntToDecimal | src/main/java/com/acs/tgbot/TelegramBotService.java:268 | the decimal text of the row number ends with a digit and starts with '-' exactly for a negative number |
| Markdown.EscapeMarkdown | src/main/java/com/acs/tgbot/TelegramBotService.java:305-324 | not stated by itself: `Markdown.EscapeMarkdownIsPerChar` and the lemmas below give its properties |
| Markdown.EscapeMarkdownIsPerChar | src/main/java/com/acs/tgbot/TelegramBotService.java:305-324 | the chain of eighteen replacements equals per-character escaping: each special character is preceded by a backslash, every other character (backslash included) is kept |
| Markdown.ChainIsPerChar | src/main/java/com/acs/tgbot/TelegramBotService.java:305-324 | any chain of distinct one-character replacements, with a backslash allowed only as the first, escapes character by character |
| Markdown.EscapeMarkdownLength | src/main/java/com/acs/tgbot/TelegramBotService.java:305-324 | the escaped length is the input length plus the number of special characters |
| Markdown.EscapeMarkdownConcat | src/main/java/com/acs/tgbot/TelegramBotService.java:305-324 | escaping distributes over concatenation |
| Markdown.EscapeMarkdownSafe | src/main/java/com/acs/tgbot/TelegramBotService.java:305-324 | in escaped text every special character stands right after a backslash |
| Markdown.UnescapeEscapeMarkdown | src/main/java/com/acs/tgbot/TelegramBotService.java:305-324 | undoing the escapes one for one gives back the original text, so the escaper is injective; this is not how MarkdownV2 reads (see `Markdown.EscapeMarkdownLosesBackslash`) |
| Markdown.EscapeMarkdownInjective | src/main/java/com/acs/tgbot/TelegramBotService.java:305-324 | two different texts never escape alike |
| Markdown.EscapeMarkdownHead | src/main/java/com/acs/tgbot/TelegramBotService.java:305-324 | escaped text never starts with a special character |
| Markdown.EscapeMarkdownLast | src/main/java/com/acs/tgbot/TelegramBotService.java:305-324 | escaping keeps the last character |
| Markdown.EscapeMarkdownLosesBackslash | src/main/java/com/acs/tgbot/TelegramBotService.java:305-324 | as written: a backslash in the text is sent bare, so `\n` is shown as `n` and `\_` escapes to `\\_`, which holds a bare italic marker |
| Markdown.EscapeMarkdownCorrectedReads | src/main/java/com/acs/tgbot/TelegramBotService.java:305-324 | corrected, with the backslash doubled first: for every text the result has no markup and reads back as the text |
| Markdown.EscapeMarkdownWithoutBackslash | src/main/java/com/acs/tgbot/TelegramBotService.java:305-324 | on text without a backslash the escaper as written equals the corrected one, so it has no markup and reads back as the text |
| Markdown.ReadConcat | src/main/java/com/acs/tgbot/TelegramBotService.java:266-283 | text whose backslashes all pair up inside it reads the same whatever follows it, so lines can be read one at a time |
| Registry.SubscriptionsFor | src/main/java/com/acs/tgbot/SubscriptionRepository.java:8 | `findByCustomer` returns the subscriptions of that customer and no other, each as often as it is stored |
| Registry.SubscriptionsForConcat | src/main/java/com/acs/tgbot/SubscriptionRepository.java:8 | storage order is kept: finding in two stretches of storage is finding in each, results in the same order |
| Registry.TelegramIds | src/main/java/com/acs/tgbot/TelegramBotService.java:296-297 | the telegram ids of the subscriptions, position by position |
| Registry.SubscriberIdsMembership | src/main/java/com/acs/tgbot/SubscriptionRepository.java:8-9 | an id is among the subscribers of a customer exactly when the pair (customer, id) is stored |
| Registry.IsAdmin | src/main/java/com/acs/tgbot/TelegramBotService.java:80-82 | the admin is exactly the configured admin id; what it allows is `Commands.ModeratorCommandsNeedAdmin` |
| Registry.IsModeratorOrAdmin | src/main/java/com/acs/tgbot/TelegramBotService.java:84-86 | the admin or any stored moderator id; what it allows is `Commands.ResponsibleCommandsNeedModeratorOrAdmin` |
| Commands.Route | src/main/java/com/acs/tgbot/TelegramBotService.java:60-76 | the command chosen starts the text; no command is chosen only when the text starts with none of the eight names |
| Commands.RouteUnambiguous | src/main/java/com/acs/tgbot/TelegramBotService.java:60-76 | a text starting with a command's name is routed to that command, whatever the order of the tests |
| Commands.NamesPrefixFree | src/main/java/com/acs/tgbot/TelegramBotService.java:60-76 | no command name is a prefix of another |
| Commands.StepReplies | src/main/java/com/acs/tgbot/TelegramBotService.java:57-77 | an update gets one reply, to its own chat, exactly when it is a text starting with a command name; otherwise nothing changes |
| Commands.ResponsibleCommandsNeedModeratorOrAdmin | src/main/java/com/acs/tgbot/TelegramBotService.java:84-122 | for every text, `/setresponsible` and `/unsetresponsible` deny exactly a sender who is neither the admin nor a moderator, and a denial changes nothing |
| Commands.ModeratorCommandsNeedAdmin | src/main/java/com/acs/tgbot/TelegramBotService.java:137-167 | for every text, `/setmoderator` and `/unsetmoderator` deny exactly a sender whose id is not the admin id, and a denial changes nothing |
| Commands.ReadOnlyReplies | src/main/java/com/acs/tgbot/TelegramBotService.java:218-234 | `/getmyid`, `/help` and a wrong argument count past authorization change nothing; a wrong count gets that command's usage hint |
| Commands.HandleSetResponsible | src/main/java/com/acs/tgbot/TelegramBotService.java:88-113 | changes only the responsible map, keeps every key and adds at most one; any change needs the admin or a moderator |
| Commands.HandleUnsetResponsible | src/main/java/com/acs/tgbot/TelegramBotService.java:115-135 | changes only the responsible map, adds no key and keeps the value of every remaining key; any change needs the admin or a moderator |
| Commands.HandleSetModerator | src/main/java/com/acs/tgbot/TelegramBotService.java:137-158 | changes only the moderators, keeps them in order as a prefix and adds at most one; any change needs the admin |
| Commands.HandleUnsetModerator | src/main/java/com/acs/tgbot/TelegramBotService.java:160-180 | changes only the moderators and only removes records; any change needs the admin |
| Commands.HandleSubscribe | src/main/java/com/acs/tgbot/TelegramBotService.java:182-199 | changes only the subscriptions, keeps them as a prefix and appends at most one, whose telegram id is the sender's |
| Commands.HandleUnsubscribe | src/main/java/com/acs/tgbot/TelegramBotService.java:201-216 | changes only the subscriptions and only removes records, all of them the sender's |
| Commands.HandlePreservesValid | src/main/java/com/acs/tgbot/TelegramBotService.java:88-216 | every handler keeps moderators and subscriptions duplicate-free and every stored customer key normalised |
| Commands.SetResponsibleKeepsValid | src/main/java/com/acs/tgbot/TelegramBotService.java:97-107 | the upsert keeps the registries valid |
| Commands.SetModeratorKeepsValid | src/main/java/com/acs/tgbot/TelegramBotService.java:147-151 | insert-if-absent keeps at most one moderator per telegram id |
| Commands.UnsetModeratorKeepsValid | src/main/java/com/acs/tgbot/TelegramBotService.java:170-173 | deleting a moderator keeps the registries valid |
| Commands.SubscribeKeepsValid | src/main/java/com/acs/tgbot/TelegramBotService.java:187-191 | insert-if-absent keeps at most one subscription per (customer, id) pair |
| Commands.UnsubscribeKeepsValid | src/main/java/com/acs/tgbot/TelegramBotService.java:206-209 | deleting a subscription keeps the registries valid |
| Commands.StepPreservesValid | src/main/java/com/acs/tgbot/TelegramBotService.java:57-77 | every update keeps the registries valid |
| Commands.CommandTextParts | src/main/java/com/acs/tgbot/TelegramBotService.java:95 | a command typed with its arguments is routed to it and split back into its name and arguments |
| Commands.Dispatch | src/main/java/com/acs/tgbot/TelegramBotService.java:56-78 | at most one reply, none exactly when the text starts with no command name; the reply goes to the originating chat; no reply means no change (what each command then does is `Commands.SetResponsibleDispatch` to `Commands.UnsubscribeDispatch` and `Commands.StepReplies`) |
| Commands.Step | src/main/java/com/acs/tgbot/TelegramBotService.java:56-78 | an update without a message, or with a message without text, changes nothing and sends nothing; otherwise at most one reply, to the message's own chat |
| Commands.SetResponsibleDispatch | src/main/java/com/acs/tgbot/TelegramBotService.java:95-108 | an authorised `/setresponsible C R` maps the key of C to R, changes nothing else and replies with C and R |
| Commands.UnsetResponsibleDispatch | src/main/java/com/acs/tgbot/TelegramBotService.java:122-131 | an authorised `/unsetresponsible C` deletes the key of C when present, otherwise answers "not found" and changes nothing |
| Commands.SetModeratorDispatch | src/main/java/com/acs/tgbot/TelegramBotService.java:144-154 | the admin's `/setmoderator T` appends T when absent, otherwise answers that it exists and changes nothing |
| Commands.UnsetModeratorDispatch | src/main/java/com/acs/tgbot/TelegramBotService.java:167-176 | the admin's `/unsetmoderator T` removes T when present, otherwise answers "not found" and changes nothing |
| Commands.SubscribeDispatch | src/main/java/com/acs/tgbot/TelegramBotService.java:183-195 | `/subscribe C` appends the pair (key of C, sender) when absent, otherwise answers "already subscribed" and changes nothing |
| Commands.UnsubscribeDispatch | src/main/java/com/acs/tgbot/TelegramBotService.java:202-212 | `/unsubscribe C` removes that pair when present, otherwise answers "not subscribed" and changes nothing |
| Commands.SetResponsibleParsed | src/main/java/com/acs/tgbot/TelegramBotService.java:95-108 | the first piece is never read: any routed text that splits into three pieces, such as `/setresponsible@bot C R`, from the admin or a moderator maps the key of its second piece to its third |
| Commands.UnsetResponsibleParsed | src/main/java/com/acs/tgbot/TelegramBotService.java:122-131 | any routed text of two pieces, whatever its first, from the admin or a moderator deletes the key of its second piece when present, otherwise answers "not found" |
| Commands.SetModeratorParsed | src/main/java/com/acs/tgbot/TelegramBotService.java:144-154 | any routed text of two pieces, whatever its first, from the admin appends its second piece as a moderator when absent |
| Commands.UnsetModeratorParsed | src/main/java/com/acs/tgbot/TelegramBotService.java:167-176 | any routed text of two pieces, whatever its first, from the admin removes its second piece as a moderator when present |
| Commands.SubscribeParsed | src/main/java/com/acs/tgbot/TelegramBotService.java:183-195 | any routed text of two pieces, whatever its first, appends the pair (key of its second piece, sender) when absent |
| Commands.UnsubscribeParsed | src/main/java/com/acs/tgbot/TelegramBotService.java:202-212 | any routed text of two pieces, whatever its first, removes that pair when present |
| Commands.SetResponsibleTwice | src/main/java/com/acs/tgbot/TelegramBotService.java:97-107 | a second `/setresponsible` for the same customer overwrites the value and adds no key |
| Commands.ResponsibleSetUnset | src/main/java/com/acs/tgbot/TelegramBotService.java:97-128 | setting then unsetting a customer leaves it unassigned and every other assignment as it was |
| Commands.ModeratorSetUnset | src/main/java/com/acs/tgbot/TelegramBotService.java:144-176 | set then unset moderator T: exactly one record of T after the first, none after the second, other moderators untouched |
| Commands.SubscribeUnsubscribeSubscribe | src/main/java/com/acs/tgbot/TelegramBotService.java:182-216 | subscribe, unsubscribe, subscribe: none in between, exactly one at the end, other subscriptions untouched |
| Notification.FormatDeadline | src/main/java/com/acs/tgbot/TelegramBotService.java:326-339 | a deadline shorter than ten characters gives the invalid-date text; otherwise the rendered date when rendering succeeds, and the invalid-date text when it fails |
| Notification.HeaderText | src/main/java/com/acs/tgbot/TelegramBotService.java:268 | the header starts with the headphones emoji and ends with the decimal text of the row number |
| Notification.ComposeSnoc | src/main/java/com/acs/tgbot/TelegramBotService.java:266-283 | appending a line and its break to the builder extends the text by exactly that |
| Notification.ReadText | src/main/java/com/acs/tgbot/TelegramBotService.java:266-283 | lines that each pair their backslashes and read as a shown line read, with their breaks, as the shown lines |
| Notification.MessageReadsAsShown | src/main/java/com/acs/tgbot/TelegramBotService.java:266-283 | when no customer field holds a backslash, a MarkdownV2 reader who takes the escapes out sees exactly the bold header, the deadline line and the optional lines, whatever else the fields contain |
| Notification.LinesMarkup | src/main/java/com/acs/tgbot/TelegramBotService.java:266-283 | when no customer field holds a backslash, the only markup is the pair of bold markers around the header; every other line is markup-free |
| Notification.OptionalLines | src/main/java/com/acs/tgbot/TelegramBotService.java:273-283 | the responsible line is shown exactly when the key has an assignment; the document line exactly when the link is neither null nor empty |
| Notification.Lines | src/main/java/com/acs/tgbot/TelegramBotService.java:256-285 | not stated by itself: `Notification.MessageReadsAsShown` gives its reading, `Notification.LinesMarkup` its markup and `Notification.OptionalLines` when the optional lines appear |
| Notification.MessageText | src/main/java/com/acs/tgbot/TelegramBotService.java:256-285 | not stated by itself: `Notification.MessageReadsAsShown` gives its reading, `Notification.ComposeSnoc` its building line by line |
| Notification.Broadcast | src/main/java/com/acs/tgbot/TelegramBotService.java:290-292 | one message per id, in order, each with the same text |
| Notification.Recipients | src/main/java/com/acs/tgbot/TelegramBotService.java:287-302 | moderators first, in `findAll` order, then one id per subscription of the key, then the group last |
| Notification.Notify | src/main/java/com/acs/tgbot/TelegramBotService.java:287-302 | not stated by itself: `Notification.NotifyFanOut`, `Notification.NotifyReaches` and `Notification.NotifyCounts` give its order, its reach and its multiplicity |
| Notification.BroadcastReaches | src/main/java/com/acs/tgbot/TelegramBotService.java:290-298 | a broadcast reaches exactly the ids it is given |
| Notification.BroadcastConcat | src/main/java/com/acs/tgbot/TelegramBotService.java:287-302 | sending to two lists in turn is sending to both, in order |
| Notification.NotifyFanOut | src/main/java/com/acs/tgbot/TelegramBotService.java:287-302 | moderators + subscribers of the key + 1 messages, all with the same text: moderators first in `findAll` order, then subscribers in storage order, the group last |
| Notification.NotifyReaches | src/main/java/com/acs/tgbot/TelegramBotService.java:287-302 | an id receives the notification exactly when it is a moderator, a subscriber of the key or the group |
| Notification.NotifyCounts | src/main/java/com/acs/tgbot/TelegramBotService.java:287-302 | no deduplication: each id is counted once per moderator record, once per subscription and once more as the group |
| Service.TelegramBotService.constructor | src/main/java/com/acs/tgbot/TelegramBotService.java:25-34 | a service over the given configuration and stored registries, nothing sent yet |
| Service.TelegramBotService.SendMessage | src/main/java/com/acs/tgbot/TelegramBotService.java:241-253 | one message appended to the outbox, registries untouched |
| Service.TelegramBotService.HandleSetResponsibleCommand | src/main/java/com/acs/tgbot/TelegramBotService.java:88-113 | the new registries and the one reply appended are those of `Commands.HandleSetResponsible` |
| Service.TelegramBotService.HandleUnsetResponsibleCommand | src/main/java/com/acs/tgbot/TelegramBotService.java:115-135 | the new registries and the one reply appended are those of `Commands.HandleUnsetResponsible` |
| Service.TelegramBotService.HandleSetModeratorCommand | src/main/java/com/acs/tgbot/TelegramBotService.java:137-158 | the new registries and the one reply appended are those of `Commands.HandleSetModerator` |
| Service.TelegramBotService.HandleUnsetModeratorCommand | src/main/java/com/acs/tgbot/TelegramBotService.java:160-180 | the new registries and the one reply appended are those of `Commands.HandleUnsetModerator` |
| Service.TelegramBotService.HandleSubscribeCommand | src/main/java/com/acs/tgbot/TelegramBotService.java:182-199 | the new registries and the one reply appended are those of `Commands.HandleSubscribe` |
| Service.TelegramBotService.HandleUnsubscribeCommand | src/main/java/com/acs/tgbot/TelegramBotService.java:201-216 | the new registries and the one reply appended are those of `Commands.HandleUnsubscribe` |
| Service.TelegramBotService.HandleGetMyIdCommand | src/main/java/com/acs/tgbot/TelegramBotService.java:218-221 | replies with the sender's id and changes no registry |
| Service.TelegramBotService.HandleHelpCommand | src/main/java/com/acs/tgbot/TelegramBotService.java:223-234 | replies with the help text and changes no registry |
| Service.TelegramBotService.OnUpdateReceived | src/main/java/com/acs/tgbot/TelegramBotService.java:56-78 | the new registries and the messages appended are those of `Commands.Step` |
| Service.TelegramBotService.BuildMessageText | src/main/java/com/acs/tgbot/TelegramBotService.java:256-285 | the text appended piece by piece is `Notification.MessageText`, whose reading and markup the lemmas above fix |
| Service.TelegramBotService.SendToModerators | src/main/java/com/acs/tgbot/TelegramBotService.java:287-292 | the loop appends one message per moderator id, in order, and touches no registry |
| Service.TelegramBotService.SendToSubscribers | src/main/java/com/acs/tgbot/TelegramBotService.java:295-298 | the loop appends one message per subscription, in order, and touches no registry |
| Service.TelegramBotService.SendCustomerMessage | src/main/java/com/acs/tgbot/TelegramBotService.java:255-303 | the messages appended are exactly `Notification.Notify` for the registries as they were, and no registry changes |
| Service.SubscriberIsNotified | src/main/java/com/acs/tgbot/TelegramBotService.java:182-199 | after `/subscribe C`, the next notification about the customer C reaches the sender |
| Service.UnsubscriberIsNotNotified | src/main/java/com/acs/tgbot/TelegramBotService.java:201-216 | after `/unsubscribe C`, the next notification about C reaches the sender only as a moderator or as the group |

## Left out

- Telegram transport and bot registration (`init`, `getBotUsername`, `getBotToken`, `execute` inside `sendMessage`). A send is appended to the outbox. Transport failures are caught and logged in the source, so every send is recorded as made.
- Persistence through Spring Data JPA. The repositories become the three fields of the class:
  - generated entity ids are not modelled;
  - `findAll` and `findByCustomer` are taken to return records in insertion order;
  - `Responsible.java` is not part of this model. Its two fields are inferred from `setCustomer` and `setResponsible`.
- `Seqs.Remove` deletes every copy of a record, whereas `delete` removes the one record found. The two agree on duplicate-free registries, and every handler keeps them duplicate-free (`Commands.HandlePreservesValid`). A finder that meets duplicates throws in the source; this is not modelled.
- `Text.ToUpper`: only ASCII letters are upper-cased. Java's `toUpperCase` also maps Cyrillic and other letters, and can change the length. The model keeps every non-ASCII character as it is.
- `Notification.FormatDeadline`: the successful branch (parsing with `SimpleDateFormat` and formatting with Russian month names) is the parameter `render`, with None for a `ParseException`. Only the length guard is modelled exactly. The null and empty tests of the guard are subsumed: a null deadline fails earlier at `toString()`, and an empty one is shorter than ten characters.
- The `Map<String, Object>` casts in `sendCustomerMessage`. They are replaced by the record `CustomerInfo`. So are the exceptions a missing customer or deadline or a wrongly typed value would throw. The row number is an unbounded `int`, not a 32-bit one.
- `getFrom()` returning null, and the exception that would follow.
- Emoji: each of the two emoji is one Dafny character. The source writes each as a UTF-16 surrogate pair. The escaping never touches either form.
- `Service.TelegramBotService.OnUpdateReceived`: the chain of eight `startsWith` tests is written once, as the function `Route`, and the method dispatches on its result.
- `CustomerInfoController.java` (an HTTP endpoint that writes to the admin chat only) is not part of this model.
- Notification.MessageReadsAsShown: proved only for customer data without a backslash. `escapeMarkdown` never escapes a backslash, so with one in a field the reader does not see the field as written (see Findings).
- Notification.LinesMarkup: proved only for customer data without a backslash, for the same reason.
- Replies to commands escape their arguments with the same `escapeMarkdown`, so a backslash in an argument is misread in the same way. The model states no reading of the replies.

## Findings

| source | as written | input that shows it | evidently intended | confidence | as-written member | corrected member |
|---|---|---|---|---|---|---|
| src/main/java/com/acs/tgbot/TelegramBotService.java:305-324 | the eighteen `replace` calls escape the MarkdownV2 specials but leave a backslash as it is | a GEO `C:\new` is sent as `C:\new` and shown as `C:new`; a tag `a\_b` is sent as `a\\_b`, where the reader pairs the two backslashes and the `_` opens italics | escape the backslash first (`replace("\\", "\\\\")`), so every text is shown exactly and holds no markup | not executed | Markdown.EscapeMarkdownLosesBackslash | Markdown.EscapeMarkdownCorrectedReads |

`Markdown.EscapeMarkdownCorrected` is the corrected escaper. The commands and the notification keep the escaper as written, because they model the text the bot sends. For text without a backslash the two escapers agree (`Markdown.EscapeMarkdownWithoutBackslash`). The notification lemmas are proved for exactly that case.
