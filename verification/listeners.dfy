/**
 * Listener bookkeeping shared by both managers: which annotated handler
 * methods `registerListener` files under which key, how
 * `unregisterListener(s)` strips them again, and the order in which
 * handlers run when a message arrives.
 */
module Listeners {
  import opened JavaLang
  import opened JavaStrings
  import opened BungeeCordMessages
  import opened Messages

  /** A `MessageListener` instance; equal values are `equals` listeners. */
  datatype Listener = Listener(id: nat)

  /** The plugin a listener was registered for. */
  datatype Origin = Origin(name: JString)

  /** A parameter type of a handler method. */
  datatype ParamType =
    | MessageParam(cls: MessageClass)   // a `PluginMessage` type
    | PlayerParam                       // the platform's player type
    | OtherParam

  /** A declared method of a listener class, as reflection reports it. */
  datatype HandlerMethod = HandlerMethod(name: JString, annotated: bool, params: seq<ParamType>)

  /** `MethodContainer`: the listener, the method and the plugin it came from. */
  datatype MethodContainer = MethodContainer(listener: Listener, handler: HandlerMethod, origin: Origin)

  /** A sub-channel for BungeeCord messages, an id for general ones. */
  datatype Key = SubChannelKey(subChannel: Option<JString>) | IdKey(id: int32)

  /** An annotated method that does not take exactly two parameters makes the listener invalid. */
  predicate Malformed(m: HandlerMethod) {
    m.annotated && |m.params| != 2
  }

  /**
   * Where an annotated two-parameter method is filed: under the sub-channel
   * a fresh instance of its message type reports, or under the hash of the
   * type's name. A method whose parameters are not (message, player) is
   * skipped, and so is one whose message type cannot be instantiated.
   */
  function KeyOf(m: HandlerMethod): (k: Option<Key>)
    ensures k.Some? ==> m.annotated && |m.params| == 2 && m.params[0].MessageParam? && m.params[1] == PlayerParam
  {
    if !m.annotated || |m.params| != 2 || !m.params[0].MessageParam? || m.params[1] != PlayerParam then None
    else match m.params[0].cls
      case SubChannelClass(kind) => Some(SubChannelKey(Some(SubChannelOf(kind))))
      case GeneralClass(name, _) => Some(IdKey(MessageId(name)))
      case AbstractBungeeCordClass => None
  }

  /** Both listener maps of a manager. */
  datatype Table = Table(bungeeCord: map<Option<JString>, seq<MethodContainer>>, plugin: map<int32, seq<MethodContainer>>)
  {
    /** The handlers under a key; none when the key was never used. */
    function Get(k: Key): seq<MethodContainer> {
      match k
      case SubChannelKey(s) => if s in bungeeCord then bungeeCord[s] else []
      case IdKey(id) => if id in plugin then plugin[id] else []
    }

    /** Appends a handler under a key, creating the list when needed. */
    function Add(k: Key, c: MethodContainer): (t: Table)
      ensures t.Get(k) == Get(k) + [c]
      ensures forall k' | k' != k :: t.Get(k') == Get(k')
    {
      match k
      case SubChannelKey(s) => Table(bungeeCord[s := Get(k) + [c]], plugin)
      case IdKey(id) => Table(bungeeCord, plugin[id := Get(k) + [c]])
    }
  }

  /** What `registerListener` leaves: the maps, and the exception it threw, if any. */
  datatype Registration = Registration(table: Table, thrown: Option<Exception>)

  /**
   * `registerListener`: the declared methods in order; each qualifying one
   * is appended under its key, and the first malformed one throws
   * `InvalidListenerException`, keeping what was registered before it.
   */
  function Register(t: Table, listener: Listener, origin: Origin, methods: seq<HandlerMethod>): (r: Registration)
    decreases |methods|
    ensures r.thrown.Some? ==> r.thrown == Some(InvalidListenerException)
  {
    if methods == [] then Registration(t, None)
    else
      var m := methods[0];
      if Malformed(m) then Registration(t, Some(InvalidListenerException))
      else match KeyOf(m)
        case None => Register(t, listener, origin, methods[1..])
        case Some(k) => Register(t.Add(k, MethodContainer(listener, m, origin)), listener, origin, methods[1..])
  }

  /** The handlers a run of methods contributes under one key, in declaration order. */
  function Contributed(listener: Listener, origin: Origin, methods: seq<HandlerMethod>, k: Key): seq<MethodContainer>
    decreases |methods|
  {
    if methods == [] then []
    else
      var rest := Contributed(listener, origin, methods[1..], k);
      if KeyOf(methods[0]) == Some(k) then [MethodContainer(listener, methods[0], origin)] + rest else rest
  }

  /** How many methods come before the first malformed one. */
  function FirstMalformed(methods: seq<HandlerMethod>): (n: nat)
    ensures n <= |methods| && forall i | 0 <= i < n :: !Malformed(methods[i])
    ensures n < |methods| ==> Malformed(methods[n])
  {
    if methods == [] || Malformed(methods[0]) then 0 else 1 + FirstMalformed(methods[1..])
  }

  lemma ContributedAppend(listener: Listener, origin: Origin, methods: seq<HandlerMethod>, k: Key)
    requires methods != []
    ensures Contributed(listener, origin, methods, k)
         == (if KeyOf(methods[0]) == Some(k) then [MethodContainer(listener, methods[0], origin)] else [])
            + Contributed(listener, origin, methods[1..], k)
  {
  }

  lemma ContributedPrefix(listener: Listener, origin: Origin, methods: seq<HandlerMethod>, n: nat, k: Key)
    requires 0 < n <= |methods|
    ensures Contributed(listener, origin, methods[..n], k)
         == (if KeyOf(methods[0]) == Some(k) then [MethodContainer(listener, methods[0], origin)] else [])
            + Contributed(listener, origin, methods[1..][..n - 1], k)
  {
    assert methods[..n][1..] == methods[1..][..n - 1];
    assert methods[..n][0] == methods[0];
    ContributedAppend(listener, origin, methods[..n], k);
  }

  /** One qualifying or skipped method: the table it leaves for the rest of the loop. */
  lemma RegisterFirst(t: Table, listener: Listener, origin: Origin, methods: seq<HandlerMethod>)
    requires methods != [] && !Malformed(methods[0])
    ensures var m := methods[0];
      var t' := if KeyOf(m).Some? then t.Add(KeyOf(m).value, MethodContainer(listener, m, origin)) else t;
      Register(t, listener, origin, methods) == Register(t', listener, origin, methods[1..])
      && forall k :: t'.Get(k) == t.Get(k) + (if KeyOf(m) == Some(k) then [MethodContainer(listener, m, origin)] else [])
  {
  }

  /** The inductive step of `RegisterAppends`: the first method is not malformed. */
  lemma RegisterAppendsStep(t: Table, listener: Listener, origin: Origin, methods: seq<HandlerMethod>, t': Table)
    requires methods != [] && !Malformed(methods[0])
    requires t' == if KeyOf(methods[0]).Some? then t.Add(KeyOf(methods[0]).value, MethodContainer(listener, methods[0], origin)) else t
    requires var r := Register(t', listener, origin, methods[1..]);
      var n := FirstMalformed(methods[1..]);
      (r.thrown.Some? <==> n < |methods[1..]|)
      && forall k :: r.table.Get(k) == t'.Get(k) + Contributed(listener, origin, methods[1..][..n], k)
    ensures var r := Register(t, listener, origin, methods);
      var n := FirstMalformed(methods);
      (r.thrown.Some? <==> n < |methods|)
      && forall k :: r.table.Get(k) == t.Get(k) + Contributed(listener, origin, methods[..n], k)
  {
    var m := methods[0];
    var n := FirstMalformed(methods);
    var r := Register(t, listener, origin, methods);
    RegisterFirst(t, listener, origin, methods);
    assert n == 1 + FirstMalformed(methods[1..]);
    forall k ensures r.table.Get(k) == t.Get(k) + Contributed(listener, origin, methods[..n], k) {
      var own := if KeyOf(m) == Some(k) then [MethodContainer(listener, m, origin)] else [];
      var later := Contributed(listener, origin, methods[1..][..n - 1], k);
      assert r.table.Get(k) == t'.Get(k) + later;
      ContributedPrefix(listener, origin, methods, n, k);
      assert t'.Get(k) + later == t.Get(k) + (own + later);
    }
  }

  /**
   * Registration appends, under every key, exactly the handlers of the
   * qualifying methods declared before the first malformed one, in order;
   * it throws exactly when there is a malformed one.
   */
  lemma {:induction false} RegisterAppends(t: Table, listener: Listener, origin: Origin, methods: seq<HandlerMethod>)
    ensures var r := Register(t, listener, origin, methods);
      var n := FirstMalformed(methods);
      (r.thrown.Some? <==> n < |methods|)
      && forall k :: r.table.Get(k) == t.Get(k) + Contributed(listener, origin, methods[..n], k)
    decreases |methods|
  {
    if methods != [] && !Malformed(methods[0]) {
      var m := methods[0];
      var t' := if KeyOf(m).Some? then t.Add(KeyOf(m).value, MethodContainer(listener, m, origin)) else t;
      RegisterAppends(t', listener, origin, methods[1..]);
      RegisterAppendsStep(t, listener, origin, methods, t');
    }
  }

  /**
   * A malformed method after a qualifying one: the exception is thrown, but
   * the handler filed before it stays registered.
   */
  lemma MalformedKeepsEarlier(t: Table, listener: Listener, origin: Origin, good: HandlerMethod, bad: HandlerMethod)
    requires KeyOf(good).Some? && Malformed(bad)
    ensures var r := Register(t, listener, origin, [good, bad]);
      r.thrown == Some(InvalidListenerException)
      && r.table.Get(KeyOf(good).value) == t.Get(KeyOf(good).value) + [MethodContainer(listener, good, origin)]
  {
    assert [good, bad][1..] == [bad];
  }

  lemma RegisterStep(t: Table, listener: Listener, origin: Origin, declared: seq<HandlerMethod>, i: nat)
    requires i < |declared|
    ensures Register(t, listener, origin, declared[i..]) ==
      var m := declared[i];
      if Malformed(m) then Registration(t, Some(InvalidListenerException))
      else match KeyOf(m)
        case None => Register(t, listener, origin, declared[i + 1..])
        case Some(k) => Register(t.Add(k, MethodContainer(listener, m, origin)), listener, origin, declared[i + 1..])
  {
    assert declared[i..][0] == declared[i];
    assert declared[i..][1..] == declared[i + 1..];
  }

  /**
   * The loop of `registerListener` over the declared methods, on the
   * manager's two maps.
   */
  method RegisterEach(t: Table, listener: Listener, origin: Origin, declared: seq<HandlerMethod>)
    returns (r: Table, thrown: Option<Exception>)
    ensures Registration(r, thrown) == Register(t, listener, origin, declared)
  {
    r, thrown := t, None;
    var i := 0;
    while i < |declared|
      invariant 0 <= i <= |declared|
      invariant Register(r, listener, origin, declared[i..]) == Register(t, listener, origin, declared)
    {
      var m := declared[i];
      RegisterStep(r, listener, origin, declared, i);
      if m.annotated {
        if |m.params| != 2 {
          thrown := Some(InvalidListenerException);
          return;
        }
        match KeyOf(m) {
          case Some(k) => r := r.Add(k, MethodContainer(listener, m, origin));
          case None =>
        }
      }
      i := i + 1;
    }
  }

  // ------------------------------------------------------------ unregistering

  /** Which handlers `unregisterListener` or `unregisterListeners` removes. */
  datatype Selector = ByListener(listener: Listener) | ByOrigin(origin: Origin)
  {
    predicate Matches(c: MethodContainer) {
      match this
      case ByListener(l) => c.listener == l
      case ByOrigin(o) => c.origin == o
    }
  }

  /** The handlers of a list that a selector keeps, in order. */
  function Without(list: seq<MethodContainer>, sel: Selector): (r: seq<MethodContainer>)
    ensures |r| <= |list|
    ensures forall c | c in r :: c in list && !sel.Matches(c)
    ensures forall c | c in list && !sel.Matches(c) :: c in r
  {
    if list == [] then []
    else (if sel.Matches(list[0]) then [] else [list[0]]) + Without(list[1..], sel)
  }

  /** Every list of a map with the selected handlers removed; the keys all stay. */
  function WithoutAll<K>(m: map<K, seq<MethodContainer>>, sel: Selector): (r: map<K, seq<MethodContainer>>)
    ensures r.Keys == m.Keys
  {
    map k | k in m :: Without(m[k], sel)
  }

  function Unregister(t: Table, sel: Selector): (r: Table)
    ensures forall k :: r.Get(k) == Without(t.Get(k), sel)
  {
    Table(WithoutAll(t.bungeeCord, sel), WithoutAll(t.plugin, sel))
  }

  lemma {:induction false} WithoutConcat(a: seq<MethodContainer>, b: seq<MethodContainer>, sel: Selector)
    ensures Without(a + b, sel) == Without(a, sel) + Without(b, sel)
    decreases |a|
  {
    if a != [] {
      var head := if sel.Matches(a[0]) then [] else [a[0]];
      assert (a + b)[0] == a[0] && (a + b)[1..] == a[1..] + b;
      assert Without(a + b, sel) == head + Without(a[1..] + b, sel);
      WithoutConcat(a[1..], b, sel);
      assert head + (Without(a[1..], sel) + Without(b, sel)) == (head + Without(a[1..], sel)) + Without(b, sel);
    } else {
      assert a + b == b;
    }
  }

  /** Removing handlers that are not there changes nothing. */
  lemma {:induction false} WithoutNothing(list: seq<MethodContainer>, sel: Selector)
    requires forall c | c in list :: !sel.Matches(c)
    ensures Without(list, sel) == list
    decreases |list|
  {
    if list != [] {
      WithoutNothing(list[1..], sel);
      assert [list[0]] + list[1..] == list;
    }
  }

  lemma {:induction false} ContributedMatch(listener: Listener, origin: Origin, methods: seq<HandlerMethod>, k: Key)
    ensures forall c | c in Contributed(listener, origin, methods, k) :: c.listener == listener && c.origin == origin
    decreases |methods|
  {
    if methods != [] {
      ContributedMatch(listener, origin, methods[1..], k);
    }
  }

  /**
   * Unregistering a listener that was not registered before undoes its
   * registration, list by list; only the keys registration created remain,
   * now with empty lists. The same holds for an origin.
   */
  lemma UnregisterUndoesRegister(t: Table, listener: Listener, origin: Origin, methods: seq<HandlerMethod>, sel: Selector)
    requires sel == ByListener(listener) || sel == ByOrigin(origin)
    requires forall k, c | c in t.Get(k) :: !sel.Matches(c)
    ensures var r := Register(t, listener, origin, methods).table;
      forall k :: Unregister(r, sel).Get(k) == t.Get(k)
  {
    var r := Register(t, listener, origin, methods).table;
    RegisterAppends(t, listener, origin, methods);
    var n := FirstMalformed(methods);
    forall k ensures Unregister(r, sel).Get(k) == t.Get(k) {
      var added := Contributed(listener, origin, methods[..n], k);
      WithoutConcat(t.Get(k), added, sel);
      WithoutNothing(t.Get(k), sel);
      ContributedMatch(listener, origin, methods[..n], k);
      WithoutEverything(added, sel);
    }
  }

  lemma {:induction false} WithoutEverything(list: seq<MethodContainer>, sel: Selector)
    requires forall c | c in list :: sel.Matches(c)
    ensures Without(list, sel) == []
    decreases |list|
  {
    if list != [] {
      WithoutEverything(list[1..], sel);
    }
  }

  /** Unregistering twice is unregistering once. */
  lemma {:induction false} WithoutIdempotent(list: seq<MethodContainer>, sel: Selector)
    ensures Without(Without(list, sel), sel) == Without(list, sel)
  {
    WithoutNothing(Without(list, sel), sel);
  }

  /** Filtering a list extended by one handler. */
  lemma WithoutSnoc(list: seq<MethodContainer>, c: MethodContainer, sel: Selector)
    ensures Without(list + [c], sel) == Without(list, sel) + (if sel.Matches(c) then [] else [c])
  {
    WithoutConcat(list, [c], sel);
    assert [c][1..] == [];
  }

  /** The loop `iterator.remove()` runs over one list. */
  method RemoveMatching(list: seq<MethodContainer>, sel: Selector) returns (kept: seq<MethodContainer>)
    ensures kept == Without(list, sel)
  {
    hide Without;
    kept := [];
    var i := 0;
    while i < |list|
      invariant 0 <= i <= |list|
      invariant kept == Without(list[..i], sel)
    {
      assert list[..i + 1] == list[..i] + [list[i]];
      WithoutSnoc(list[..i], list[i], sel);
      if !sel.Matches(list[i]) {
        kept := kept + [list[i]];
      }
      i := i + 1;
    }
    assert list[..|list|] == list;
  }

  /** The loop over a map's key set, one list after another. */
  method RemoveFromAll<K>(m: map<K, seq<MethodContainer>>, sel: Selector) returns (r: map<K, seq<MethodContainer>>)
    ensures r == WithoutAll(m, sel)
  {
    hide Without;
    r := map[];
    var todo := m.Keys;
    while todo != {}
      invariant todo <= m.Keys && r.Keys == m.Keys - todo
      invariant forall k | k in r :: r[k] == Without(m[k], sel)
      decreases todo
    {
      var k :| k in todo;
      var kept := RemoveMatching(m[k], sel);
      r := r[k := kept];
      todo := todo - {k};
    }
  }

  // ------------------------------------------------------------ dispatch

  /**
   * A handler fails when it is in the throwing set, or when its parameter does not accept
   * the message (a class whose name hashes to the same id).
   */
  function Fails(c: MethodContainer, cls: MessageClass, throwing: set<MethodContainer>): (failed: bool)
    ensures c in throwing ==> failed
    ensures |c.handler.params| > 0 && c.handler.params[0] == MessageParam(cls) ==> (failed <==> c in throwing)
  {
    c in throwing || |c.handler.params| == 0 || c.handler.params[0] != MessageParam(cls)
  }

  /** The outcome of one dispatch: the handlers that ran, and the exception it ended with. */
  datatype Dispatch = Dispatch(invoked: seq<MethodContainer>, thrown: Option<Exception>)

  /**
   * The handlers run in order; the first that fails is wrapped in a
   * `PluginMessageEventException`, which ends the dispatch.
   */
  function Run(list: seq<MethodContainer>, cls: MessageClass, throwing: set<MethodContainer>): (d: Dispatch)
    ensures d.thrown.Some? ==> d.thrown == Some(PluginMessageEventException)
  {
    if list == [] then Dispatch([], None)
    else if Fails(list[0], cls, throwing) then Dispatch([list[0]], Some(PluginMessageEventException))
    else
      var rest := Run(list[1..], cls, throwing);
      Dispatch([list[0]] + rest.invoked, rest.thrown)
  }

  /**
   * Every handler runs when none fails; otherwise exactly those up to and
   * including the first that fails, and the dispatch throws.
   */
  lemma {:induction false} RunStops(list: seq<MethodContainer>, cls: MessageClass, throwing: set<MethodContainer>)
    ensures var d := Run(list, cls, throwing);
      var n := |d.invoked|;
      n <= |list| && d.invoked == list[..n]
      && (forall i | 0 <= i < n - 1 :: !Fails(list[i], cls, throwing))
      && (d.thrown.None? <==> forall i | 0 <= i < |list| :: !Fails(list[i], cls, throwing))
      && (d.thrown.None? ==> n == |list|)
      && (d.thrown.Some? ==> 0 < n && Fails(list[n - 1], cls, throwing))
    decreases |list|
  {
    if list != [] && !Fails(list[0], cls, throwing) {
      RunStops(list[1..], cls, throwing);
      var rest := Run(list[1..], cls, throwing);
      assert [list[0]] + list[1..][..|rest.invoked|] == list[..|rest.invoked| + 1];
      forall i | 0 <= i < |list| - 1 ensures list[1..][i] == list[i + 1] { }
    }
  }

  /**
   * The outcome of a dispatch in which handlers `list[..n]` succeed and
   * `list[n]`, if there is one, fails.
   */
  lemma RunUpTo(list: seq<MethodContainer>, n: nat, cls: MessageClass, throwing: set<MethodContainer>)
    requires n <= |list| && forall j | 0 <= j < n :: !Fails(list[j], cls, throwing)
    requires n < |list| ==> Fails(list[n], cls, throwing)
    ensures n == |list| ==> Run(list, cls, throwing) == Dispatch(list, None)
    ensures n < |list| ==> Run(list, cls, throwing) == Dispatch(list[..n + 1], Some(PluginMessageEventException))
  {
    RunStops(list, cls, throwing);
    var d := Run(list, cls, throwing);
    if n == |list| {
      assert list[..|list|] == list;
    } else {
      assert d.thrown.Some?;
      var m := |d.invoked|;
      assert Fails(list[m - 1], cls, throwing) && Fails(list[n], cls, throwing);
      assert m - 1 == n;
    }
  }

  /** The loop over the handlers, inside the `try` that wraps each failure. */
  method InvokeHandlers(list: seq<MethodContainer>, cls: MessageClass, throwing: set<MethodContainer>)
    returns (invoked: seq<MethodContainer>, thrown: Option<Exception>)
    ensures Dispatch(invoked, thrown) == Run(list, cls, throwing)
  {
    invoked, thrown := [], None;
    var i := 0;
    while i < |list|
      invariant 0 <= i <= |list| && invoked == list[..i]
      invariant forall j | 0 <= j < i :: !Fails(list[j], cls, throwing)
    {
      if Fails(list[i], cls, throwing) {
        RunUpTo(list, i, cls, throwing);
        invoked := list[..i + 1];
        thrown := Some(PluginMessageEventException);
        return;
      }
      invoked := list[..i + 1];
      i := i + 1;
    }
    RunUpTo(list, i, cls, throwing);
  }
}
