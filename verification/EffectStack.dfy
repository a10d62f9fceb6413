/** The dynamic stack of effect handlers with its rebuilt cache. */
module EffectStack {
  import opened Options

  datatype Handler<V> = Handler(name: string, provider: V)

  /** The provider of the handler nearest the top that has this name. */
  function TopDown<V>(handlers: seq<Handler<V>>, name: string): (r: Option<V>)
    ensures r.Some? <==> name in Names(handlers)
  {
    if |handlers| == 0 then None
    else if handlers[|handlers| - 1].name == name then Some(handlers[|handlers| - 1].provider)
    else TopDown(handlers[..|handlers| - 1], name)
  }

  /** The effects some handler covers. */
  ghost function Names<V>(handlers: seq<Handler<V>>): set<string> {
    set h | h in handlers :: h.name
  }

  lemma NamesPush<V>(handlers: seq<Handler<V>>, h: Handler<V>)
    ensures Names(handlers + [h]) == Names(handlers) + {h.name}
  {
    forall n ensures n in Names(handlers + [h]) <==> n in Names(handlers) + {h.name} {
      if n in Names(handlers) {
        var g :| g in handlers && g.name == n;
        assert g in handlers + [h];
      }
      if n == h.name { assert h in handlers + [h]; }
    }
  }

  /** The map the cache should hold: every covered name, bound to its topmost
      provider. */
  ghost predicate Agrees<V>(cache: map<string, V>, handlers: seq<Handler<V>>) {
    forall n :: (n in cache <==> n in Names(handlers)) && (n in cache ==> TopDown(handlers, n) == Some(cache[n]))
  }

  lemma AgreesPush<V>(cache: map<string, V>, handlers: seq<Handler<V>>, h: Handler<V>)
    requires Agrees(cache, handlers)
    ensures Agrees(cache[h.name := h.provider], handlers + [h])
  {
    var hs := handlers + [h];
    NamesPush(handlers, h);
    assert hs[..|hs| - 1] == handlers;
    forall n | n in cache[h.name := h.provider]
      ensures TopDown(hs, n) == Some(cache[h.name := h.provider][n])
    {
      if n != h.name { assert n in cache; }
    }
  }

  class EffectStack<V> {
    var handlers: seq<Handler<V>>
    var cache: map<string, V>

    /** The cache always answers as a search from the top would. */
    ghost predicate Valid()
      reads this
    {
      Agrees(cache, handlers)
    }

    constructor ()
      ensures Valid() && handlers == []
    {
      handlers, cache := [], map[];
    }

    method RebuildCache()
      modifies `cache
      ensures Valid()
    {
      cache := map[];
      for k := 0 to |handlers|
        invariant Agrees(cache, handlers[..k])
      {
        AgreesPush(cache, handlers[..k], handlers[k]);
        assert handlers[..k + 1] == handlers[..k] + [handlers[k]];
        cache := cache[handlers[k].name := handlers[k].provider];
      }
      assert handlers[..|handlers|] == handlers;
    }

    method Push(h: Handler<V>)
      modifies this
      ensures Valid() && handlers == old(handlers) + [h]
    {
      handlers := handlers + [h];
      RebuildCache();
    }

    method Pop()
      requires Valid()
      modifies this
      ensures Valid() && handlers == if |old(handlers)| > 0 then old(handlers)[..|old(handlers)| - 1] else []
    {
      if |handlers| > 0 {
        handlers := handlers[..|handlers| - 1];
        RebuildCache();
      }
    }

    /** The constant-time lookup is the search from the top. */
    method Resolve(name: string) returns (r: Option<V>)
      requires Valid()
      ensures r == TopDown(handlers, name)
    {
      r := if name in cache then Some(cache[name]) else None;
    }
  }
}
