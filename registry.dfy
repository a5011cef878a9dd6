/**
 * The three registries the bot keeps (moderators, responsible-party
 * assignments, subscriptions), the configured identities, the authorization
 * policy over them, and the outgoing-message record.
 */
module Registry {
  import opened Seqs
  import Text

  /** A Subscription record: this chat identity wants the notifications of this customer. */
  datatype Subscription = Subscription(customer: string, telegramId: string)

  /** The identities read from the configuration at start-up. */
  datatype Config = Config(adminId: string, groupId: string)

  /**
   * The registries: moderator telegram ids in `findAll` order, the
   * responsible-party tag of each customer key, and the subscriptions in
   * storage order.
   */
  datatype Registries = Registries(
    moderators: seq<string>,
    responsible: map<string, string>,
    subscriptions: seq<Subscription>)

  /** One message handed to the chat transport: recipient chat id and text. */
  datatype Send = Send(chatId: string, text: string)

  /**
   * What the command handlers maintain: at most one moderator per telegram
   * id, at most one subscription per (customer, telegram id) pair, and every
   * stored customer key already normalised. (At most one assignment per
   * customer holds by construction of the map.)
   */
  predicate Valid(r: Registries) {
    && NoDuplicates(r.moderators)
    && NoDuplicates(r.subscriptions)
    && (forall c :: c in r.responsible ==> Text.IsKey(c))
    && (forall s :: s in r.subscriptions ==> Text.IsKey(s.customer))
  }

  /** `isAdmin`: the exact configured admin id. */
  predicate IsAdmin(cfg: Config, telegramId: string) {
    telegramId == cfg.adminId
  }

  /** `isModeratorOrAdmin`: the admin, or an id `findByTelegramId` finds. */
  predicate IsModeratorOrAdmin(cfg: Config, regs: Registries, telegramId: string) {
    IsAdmin(cfg, telegramId) || telegramId in regs.moderators
  }

  /**
   * `findByCustomer` on subscriptions: those of one customer key, each record
   * as often as it is stored, in storage order.
   */
  function SubscriptionsFor(subs: seq<Subscription>, customer: string): (r: seq<Subscription>)
    ensures |r| <= |subs|
    ensures forall s :: s in r <==> s in subs && s.customer == customer
    ensures forall k :: 0 <= k < |r| ==> r[k].customer == customer
    ensures forall s :: multiset(r)[s] == if s.customer == customer then multiset(subs)[s] else 0
  {
    if subs == [] then []
    else
      var rest := SubscriptionsFor(subs[1..], customer);
      assert subs == [subs[0]] + subs[1..];
      assert multiset(subs) == multiset{subs[0]} + multiset(subs[1..]);
      if subs[0].customer == customer then [subs[0]] + rest else rest
  }

  /**
   * The storage order is kept: finding in two stretches of storage one after
   * the other is finding in each and putting the results in the same order.
   */
  lemma {:induction false} SubscriptionsForConcat(a: seq<Subscription>, b: seq<Subscription>, customer: string)
    ensures SubscriptionsFor(a + b, customer) == SubscriptionsFor(a, customer) + SubscriptionsFor(b, customer)
  {
    if a == [] {
      assert a + b == b;
    } else {
      assert (a + b)[1..] == a[1..] + b;
      SubscriptionsForConcat(a[1..], b, customer);
    }
  }

  /** The telegram ids of some subscriptions, in their order. */
  function TelegramIds(subs: seq<Subscription>): (ids: seq<string>)
    ensures |ids| == |subs|
    ensures forall k :: 0 <= k < |subs| ==> ids[k] == subs[k].telegramId
  {
    seq(|subs|, k requires 0 <= k < |subs| => subs[k].telegramId)
  }

  /** The ids subscribed to a customer key: exactly the senders of a matching subscription. */
  lemma SubscriberIdsMembership(subs: seq<Subscription>, customer: string, id: string)
    ensures id in TelegramIds(SubscriptionsFor(subs, customer)) <==> Subscription(customer, id) in subs
  {
    var r := SubscriptionsFor(subs, customer);
    var ids := TelegramIds(r);
    if id in ids {
      var k :| 0 <= k < |ids| && ids[k] == id;
      assert r[k] == Subscription(customer, id);
    }
    if Subscription(customer, id) in subs {
      var k :| 0 <= k < |r| && r[k] == Subscription(customer, id);
      assert ids[k] == id;
    }
  }
}
