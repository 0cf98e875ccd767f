/** The bot registry with its cached sorted view (app/chatbot/registry.py). */
module Registry {
  import opened Common
  import opened Sorting
  import opened Text

  type BotKey = string

  /** A registered bot. `instance` tells two loads of the same key apart. */
  datatype Bot = Bot(key: BotKey, priority: int, instance: nat)

  predicate Before(a: Bot, b: Bot) {
    a.priority < b.priority || (a.priority == b.priority && StrLess(a.key, b.key))
  }

  ghost predicate Keyed(bots: map<BotKey, Bot>) { forall k :: k in bots ==> bots[k].key == k }

  /** `view` lists exactly the registered bots, by priority and then key. */
  ghost predicate IsSortedView(bots: map<BotKey, Bot>, view: seq<Bot>) {
    && StrictlySorted(Before, view)
    && (forall b :: b in view <==> b.key in bots && bots[b.key] == b)
  }

  lemma BeforeIsOrder()
    ensures StrictOrder(Before)
  {
    forall a: Bot ensures !Before(a, a) { StrIrreflexive(a.key); }
    forall a, b, c: Bot | Before(a, b) && Before(b, c) ensures Before(a, c) {
      if a.priority == b.priority == c.priority { StrTransitive(a.key, b.key, c.key); }
    }
  }

  /** A registry has one sorted view, so a cached one is the one a fresh sort would give. */
  lemma SortedViewUnique(bots: map<BotKey, Bot>, a: seq<Bot>, b: seq<Bot>)
    requires IsSortedView(bots, a) && IsSortedView(bots, b)
    ensures a == b
  {
    BeforeIsOrder();
    SortedUnique(Before, a, b);
  }

  class ChatbotRegistry {
    var bots: map<BotKey, Bot>
    var sorted: Option<seq<Bot>>

    ghost predicate Valid()
      reads this
    {
      Keyed(bots) && (sorted.Some? ==> IsSortedView(bots, sorted.value))
    }

    constructor ()
      ensures Valid() && bots == map[]
    {
      bots, sorted := map[], None;
    }

    method Register(bot: Bot) returns (added: bool)
      requires Valid()
      modifies this
      ensures Valid() && added == (bot.key !in old(bots))
      ensures bots == if added then old(bots)[bot.key := bot] else old(bots)
    {
      added := bot.key !in bots;
      if added { bots, sorted := bots[bot.key := bot], None; }
    }

    method Replace(bot: Bot) returns (previous: Option<Bot>)
      requires Valid()
      modifies this
      ensures Valid() && bots == old(bots)[bot.key := bot]
      ensures previous == if bot.key in old(bots) then Some(old(bots)[bot.key]) else None
    {
      previous := if bot.key in bots then Some(bots[bot.key]) else None;
      bots, sorted := bots[bot.key := bot], None;
    }

    method Unregister(key: BotKey) returns (previous: Option<Bot>)
      requires Valid()
      modifies this
      ensures Valid() && bots == old(bots) - {key}
      ensures previous == if key in old(bots) then Some(old(bots)[key]) else None
    {
      previous := if key in bots then Some(bots[key]) else None;
      if previous.Some? {
        bots, sorted := bots - {key}, None;
      } else {
        assert bots == bots - {key};
      }
    }

    /** The sorted view, cached or not. */
    method Snapshot() returns (view: seq<Bot>)
      requires Valid()
      modifies this`sorted
      ensures Valid() && IsSortedView(bots, view) && sorted == Some(view)
      ensures forall i, j :: 0 <= i < j < |view| ==>
                view[i].priority < view[j].priority || (view[i].priority == view[j].priority && StrLess(view[i].key, view[j].key))
    {
      if sorted.None? {
        view := SortBots();
        sorted := Some(view);
      } else {
        view := sorted.value;
      }
    }

    /** Stands for the library sort: the view is unique, so any sort with this contract returns it. */
    method SortBots() returns (view: seq<Bot>)
      requires Valid()
      ensures IsSortedView(bots, view)
    {
      view := [];
      var left := bots.Keys;
      while left != {}
        invariant left <= bots.Keys && StrictlySorted(Before, view)
        invariant forall b :: b in view <==> b.key in bots && b.key !in left && bots[b.key] == b
        invariant forall b, k :: b in view && k in left ==> Before(b, bots[k])
        decreases |left|
      {
        var key := FirstOf(left);
        view := view + [bots[key]];
        left := left - {key};
      }
    }

    method FirstOf(keys: set<BotKey>) returns (first: BotKey)
      requires Valid() && keys != {} && keys <= bots.Keys
      ensures first in keys && forall k :: k in keys && k != first ==> Before(bots[first], bots[k])
    {
      first :| first in keys;
      var rest := keys - {first};
      while rest != {}
        invariant rest <= keys && first in keys && first !in rest
        invariant forall k :: k in keys && k !in rest && k != first ==> Before(bots[first], bots[k])
        decreases |rest|
      {
        var key :| key in rest;
        rest := rest - {key};
        BeforeIsOrder();
        StrTotal(bots[key].key, bots[first].key);
        if Before(bots[key], bots[first]) { first := key; }
      }
    }
  }
}
