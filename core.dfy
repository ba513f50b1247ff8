/**
 * The dependency core of src/core/index.js: the marker that identifies a
 * dependency action, `listenFor` (a reducer enhancer that merges dependency
 * payloads into `entities`), the validation of a dependency mapping, and
 * `dataDispatch`, which dispatches one dependency action per entry and then
 * forwards the original action.
 */
module Core {
  import opened JsValue
  import Utils

  /** The registry key of the `DATA_TREE_ID` marker symbol. */
  const DataTreeId: string := "dataTree.action"

  /** Dependency action types are `Symbol.for(DataTreePrefix + key)`. */
  const DataTreePrefix: string := "dataTree."

  /**
   * An action's `type`: a registered symbol (`Symbol.for(key)`), a symbol
   * outside the registry (`Symbol(description)`), or an ordinary string.
   */
  datatype ActionType = SymKey(key: string) | Unique(description: string) | Plain(name: string)

  /**
   * An action: `marker` says whether it carries the `DATA_TREE_ID` own
   * property; an absent `payload` is `Undefined`.
   */
  datatype Action = Action(marker: bool, actionType: ActionType, payload: Value)

  /**
   * The action as the object a path selector is resolved against: its only
   * string-keyed properties are `type` and `payload`.
   */
  function AsValue(a: Action): (v: Value)
    ensures v.Obj? && v.fields.Keys == {"type", "payload"}
    ensures Get(v, "payload") == a.payload
    ensures a.actionType.Plain? ==> Get(v, "type") == Str(a.actionType.name)
    ensures !a.actionType.Plain? ==> Get(v, "type").Symbol?
  {
    var t := match a.actionType
      case SymKey(k) => Symbol(true, k)
      case Unique(d) => Symbol(false, d)
      case Plain(n) => Str(n);
    Obj(map["type" := t, "payload" := a.payload])
  }

  // ---------------------------------------------------------------------
  // listenFor
  // ---------------------------------------------------------------------

  /** A reducer, and also a reducer enhanced by `listenFor`; either can throw. */
  type Reducer = (Value, Action) -> Result<Value>

  /**
   * `action` is a dependency action aimed at `key`: it carries the marker and
   * its type is the registered symbol whose key is `DataTreePrefix`
   * followed by `key`.
   */
  predicate IsDependencyFor(action: Action, key: string): (b: bool)
    ensures b <==> action.marker && action.actionType.SymKey? &&
                   |action.actionType.key| >= |DataTreePrefix| &&
                   action.actionType.key[..|DataTreePrefix|] == DataTreePrefix &&
                   action.actionType.key[|DataTreePrefix|..] == key
  {
    if action.marker && action.actionType.SymKey? then
      var k := action.actionType.key;
      assert k == DataTreePrefix + key ==> k[..|DataTreePrefix|] == DataTreePrefix && k[|DataTreePrefix|..] == key;
      assert |k| >= |DataTreePrefix| ==> k == k[..|DataTreePrefix|] + k[|DataTreePrefix|..];
      k == DataTreePrefix + key
    else false
  }

  /** The shallow merge `{ ...base, ...over }`: keys of `over` win. */
  function Merge(base: map<string, Value>, over: map<string, Value>): (m: map<string, Value>)
    ensures m.Keys == base.Keys + over.Keys
    ensures forall k :: k in over ==> m[k] == over[k]
    ensures forall k :: k in base && k !in over ==> m[k] == base[k]
  {
    base + over
  }

  /**
   * The reducer built by `listenFor(key)(reducer)`, applied to
   * `(state, action)`. A matching dependency action merges its payload into
   * `state.entities`; every other action goes to `reducer`. A marked action
   * whose type is not a symbol makes `Symbol.keyFor` throw, and reading
   * `entities` of an undefined or null state throws.
   */
  function Listen(key: string, reducer: Reducer, state: Value, action: Action): (r: Result<Value>)
    ensures !action.marker ==> r == reducer(state, action)
    ensures action.marker && action.actionType.Plain? ==> r == Err(NotASymbol)
    ensures action.marker && !action.actionType.Plain? && !IsDependencyFor(action, key)
      ==> r == reducer(state, action)
    ensures IsDependencyFor(action, key) && (state.Undefined? || state.Null?) ==> r == Err(NullishState)
    ensures IsDependencyFor(action, key) && !(state.Undefined? || state.Null?) ==> r.Ok? && r.value.Obj?
  {
    if !action.marker then reducer(state, action)
    else match action.actionType
      case Plain(_) => Err(NotASymbol)
      case Unique(_) => reducer(state, action)
      case SymKey(k) =>
        if k != DataTreePrefix + key then reducer(state, action)
        else if state.Undefined? || state.Null? then Err(NullishState)
        else
          var entities := Merge(Own(Get(state, "entities")), Own(action.payload));
          Ok(Obj(Own(state)["entities" := Obj(entities)]))
  }

  /**
   * `listenFor(key)`: a non-string key throws at once, before any reducer is
   * supplied; a string key gives the enhancer that builds `Listen`.
   */
  function ListenFor(key: Value): (r: Result<Reducer -> Reducer>)
    ensures r.Err? <==> !key.Str?
    ensures r.Err? ==> r.error == InvalidKey
    ensures r.Ok? ==> forall reducer, state, action ::
      r.value(reducer)(state, action) == Listen(key.s, reducer, state, action)
  {
    if !key.Str? then Err(InvalidKey)
    else Ok(reducer => (state, action) => Listen(key.s, reducer, state, action))
  }

  /**
   * A dependency action aimed at the listener's key replaces `entities` by
   * the shallow merge of the old `entities` (empty when missing) and the
   * payload, with payload keys winning, and keeps every other field of the
   * state.
   */
  lemma DependencyActionMerges(key: string, reducer: Reducer, state: Value, action: Action)
    requires IsDependencyFor(action, key)
    requires !(state.Undefined? || state.Null?)
    ensures var r := Listen(key, reducer, state, action);
      && r.Ok? && r.value.Obj?
      && r.value.fields.Keys == Own(state).Keys + {"entities"}
      && (forall f :: f in Own(state) && f != "entities" ==> r.value.fields[f] == Own(state)[f])
      && r.value.fields["entities"].Obj?
      && var entities := r.value.fields["entities"].fields;
      && entities.Keys == Own(Get(state, "entities")).Keys + Own(action.payload).Keys
      && (forall k :: k in Own(action.payload) ==> entities[k] == Own(action.payload)[k])
      && (forall k :: k in Own(Get(state, "entities")) && k !in Own(action.payload) ==>
            entities[k] == Own(Get(state, "entities"))[k])
  {
  }

  /** With no `entities` in the state, the new `entities` is the payload itself. */
  lemma MissingEntitiesIsEmpty(key: string, reducer: Reducer, state: Value, action: Action)
    requires IsDependencyFor(action, key)
    requires state.Obj? && "entities" !in state.fields
    requires action.payload.Obj?
    ensures Listen(key, reducer, state, action) ==
      Ok(Obj(state.fields["entities" := action.payload]))
  {
    var m := Merge(map[], action.payload.fields);
    assert m == action.payload.fields;
  }

  /**
   * The dependency action built for dependency `name` reaches the listener
   * for `key` exactly when `key` is `name`; any other listener hands it to
   * its own reducer.
   */
  lemma {:induction false} SubActionTargetsItsKey(name: string, payload: Value, key: string)
    ensures IsDependencyFor(SubAction(name, payload), key) <==> key == name
  {
    if IsDependencyFor(SubAction(name, payload), key) {
      var s1, s2 := DataTreePrefix + name, DataTreePrefix + key;
      assert s1 == s2;
      assert s1[|DataTreePrefix|..] == name;
      assert s2[|DataTreePrefix|..] == key;
    }
  }

  // ---------------------------------------------------------------------
  // Dependency mappings and their validation
  // ---------------------------------------------------------------------

  /**
   * The value of one dependency entry: a path string, a function of the
   * action, or anything else, recorded by what `typeof` says of it.
   */
  datatype Extractor = Path(selector: string) | Fn(f: Action -> Result<Value>) | Other(typeOf: TypeOf)

  /** What `typeof` can say of a value that is neither a string nor a function. */
  datatype TypeOf = UndefinedType | ObjectType | BooleanType | NumberType | BigIntType | SymbolType

  /** The name `typeof` gives; never one of the two accepted names. */
  function TypeName(t: TypeOf): (name: string)
    ensures name != "string" && name != "function"
  {
    match t
    case UndefinedType => "undefined"
    case ObjectType => "object"
    case BooleanType => "boolean"
    case NumberType => "number"
    case BigIntType => "bigint"
    case SymbolType => "symbol"
  }

  type Deps = seq<(string, Extractor)>

  /** The keys of an object are distinct. */
  predicate DistinctKeys(deps: Deps)
  {
    forall i, j :: 0 <= i < j < |deps| ==> deps[i].0 != deps[j].0
  }

  /** Every dependency value is a string or a function. */
  predicate AllExtractors(deps: Deps)
  {
    forall i :: 0 <= i < |deps| ==> !deps[i].1.Other?
  }

  /** The index of the first entry that is neither a string nor a function, or `|deps|`. */
  function FirstInvalid(deps: Deps): (j: nat)
    ensures j <= |deps|
    ensures forall i :: 0 <= i < j ==> !deps[i].1.Other?
    ensures j < |deps| ==> deps[j].1.Other?
    decreases |deps|
  {
    if deps == [] then 0
    else if deps[0].1.Other? then 0
    else 1 + FirstInvalid(deps[1..])
  }

  /**
   * `_checkDependencyObject(deps)`: passes when every value is a string or a
   * function, and otherwise throws naming the first offending key and the
   * type of its value.
   */
  function CheckDependencyObject(deps: Deps): (r: Outcome)
    ensures r.Pass? <==> AllExtractors(deps)
    ensures r.Fail? ==> exists j :: 0 <= j < |deps| && deps[j].1.Other? &&
                                   (forall i :: 0 <= i < j ==> !deps[i].1.Other?) &&
                                   r.error == InvalidDependency(deps[j].0, TypeName(deps[j].1.typeOf))
  {
    var j := FirstInvalid(deps);
    if j < |deps| then Fail(InvalidDependency(deps[j].0, TypeName(deps[j].1.typeOf))) else Pass
  }

  // ---------------------------------------------------------------------
  // dataDispatch
  // ---------------------------------------------------------------------

  /** The dependency action for dependency `name` carrying `payload`. */
  function SubAction(name: string, payload: Value): (a: Action)
    ensures IsDependencyFor(a, name)
    ensures a.payload == payload
  {
    Action(true, SymKey(DataTreePrefix + name), payload)
  }

  /**
   * The payload one dependency gives: the function applied to the action, or
   * the path resolved against the action. Either may throw.
   */
  function Extract(ex: Extractor, action: Action): (r: Result<Value>)
    requires !ex.Other?
    ensures ex.Fn? ==> r == ex.f(action)
    ensures ex.Path? && r.Err? ==> r.error.PathNotFound? && r.error.selector == ex.selector
    ensures ex.Path? && r.Ok? ==> r.value != Undefined
  {
    match ex
    case Fn(f) => f(action)
    case Path(p) => Utils.DotCaseToObjectProperty(AsValue(action), p)
  }

  /**
   * What dispatching the dependencies in order produces: the dependency
   * actions dispatched, and the error that stopped it, if any.
   */
  datatype Plan = Plan(dispatched: seq<Action>, failure: Option<Error>)

  /**
   * The dependency actions of `deps` for `action`, in order, up to the first
   * extractor that fails (`DependentsContents` says what they are).
   */
  function Dependents(action: Action, deps: Deps): (p: Plan)
    requires AllExtractors(deps)
    ensures |p.dispatched| <= |deps|
    ensures p.failure.None? ==> |p.dispatched| == |deps|
    decreases |deps|
  {
    if deps == [] then Plan([], None)
    else
      var n := |deps| - 1;
      var prior := Dependents(action, deps[..n]);
      if prior.failure.Some? then prior
      else match Extract(deps[n].1, action)
        case Err(e) => Plan(prior.dispatched, Some(e))
        case Ok(v) => Plan(prior.dispatched + [SubAction(deps[n].0, v)], None)
  }

  /**
   * The i-th dependency action carries the i-th key and the i-th extractor's
   * value; when an extractor fails, the actions before it are the ones
   * dispatched, and its error is the failure.
   */
  lemma {:induction false} DependentsContents(action: Action, deps: Deps)
    requires AllExtractors(deps)
    ensures var p := Dependents(action, deps);
      && (forall i :: 0 <= i < |p.dispatched| ==>
            Extract(deps[i].1, action).Ok? &&
            p.dispatched[i] == SubAction(deps[i].0, Extract(deps[i].1, action).value))
      && (p.failure.Some? ==>
            |p.dispatched| < |deps| && Extract(deps[|p.dispatched|].1, action) == Err(p.failure.value))
    decreases |deps|
  {
    if deps != [] {
      var n := |deps| - 1;
      DependentsContents(action, deps[..n]);
    }
  }

  /** Once a prefix of the dependencies fails, the later entries change nothing. */
  lemma {:induction false} FailureStops(action: Action, deps: Deps, j: nat)
    requires AllExtractors(deps)
    requires j <= |deps|
    requires Dependents(action, deps[..j]).failure.Some?
    ensures Dependents(action, deps) == Dependents(action, deps[..j])
    decreases |deps| - j
  {
    if j < |deps| {
      var n := |deps| - 1;
      assert deps[..n][..j] == deps[..j];
      FailureStops(action, deps[..n], j);
    } else {
      assert deps[..j] == deps;
    }
  }

  /** A prefix with no failure grows by the next entry's dependency action. */
  lemma DependentsGrow(action: Action, deps: Deps, i: nat, v: Value)
    requires AllExtractors(deps) && i < |deps|
    requires Dependents(action, deps[..i]).failure.None?
    requires Extract(deps[i].1, action) == Ok(v)
    ensures Dependents(action, deps[..i + 1])
      == Plan(Dependents(action, deps[..i]).dispatched + [SubAction(deps[i].0, v)], None)
    ensures DispatchedAll(Dependents(action, deps[..i + 1]).dispatched)
      == DispatchedAll(Dependents(action, deps[..i]).dispatched) + [Dispatched(SubAction(deps[i].0, v))]
  {
    assert deps[..i + 1][..i] == deps[..i];
  }

  /** The first failing entry ends the plan of the whole mapping. */
  lemma DependentsStopAt(action: Action, deps: Deps, i: nat)
    requires AllExtractors(deps) && i < |deps|
    requires Dependents(action, deps[..i]).failure.None?
    requires Extract(deps[i].1, action).Err?
    ensures Dependents(action, deps)
      == Plan(Dependents(action, deps[..i]).dispatched, Some(Extract(deps[i].1, action).error))
  {
    assert deps[..i + 1][..i] == deps[..i];
    FailureStops(action, deps, i + 1);
  }

  /** One entry of the store's log. */
  datatype Entry =
    | Dispatched(action: Action)   // passed to `store.dispatch`
    | Forwarded(action: Action)    // passed to the middleware's `next`

  /** The log entries for handing `actions` to `store.dispatch` one after another. */
  function DispatchedAll(actions: seq<Action>): (es: seq<Entry>)
    ensures |es| == |actions|
    ensures forall i :: 0 <= i < |actions| ==> es[i] == Dispatched(actions[i])
  {
    seq(|actions|, i requires 0 <= i < |actions| => Dispatched(actions[i]))
  }

  /** The actions of a log, whichever way they arrived (what a mock store records). */
  function Actions(log: seq<Entry>): (acts: seq<Action>)
    ensures |acts| == |log|
    ensures forall i :: 0 <= i < |log| ==> acts[i] == log[i].action
  {
    seq(|log|, i requires 0 <= i < |log| => log[i].action)
  }

  /**
   * The store and the next middleware, as seen from `dataDispatch`: every
   * action handed to either is appended to one log, in call order.
   */
  class Store {
    var log: seq<Entry>

    constructor ()
      ensures log == []
    {
      log := [];
    }

    /** `store.dispatch(action)`. */
    method Dispatch(action: Action)
      modifies this
      ensures log == old(log) + [Dispatched(action)]
    {
      log := log + [Dispatched(action)];
    }

    /** `next(action)`; it returns the action, as the store's own dispatch does. */
    method Forward(action: Action) returns (r: Action)
      modifies this
      ensures log == old(log) + [Forwarded(action)]
      ensures r == action
    {
      log := log + [Forwarded(action)];
      r := action;
    }
  }

  /**
   * `dataDispatch(store)(next)(action, deps)`. An invalid mapping throws
   * before anything is dispatched. Otherwise the dependency actions go to
   * `store.dispatch` in order; a dependency function that throws, or a path
   * that does not resolve, throws there, leaving the earlier ones dispatched
   * and `next` uncalled; when all
   * succeed the original action goes to `next` last and its result is
   * returned.
   */
  method DataDispatch(store: Store, action: Action, deps: Deps := []) returns (r: Result<Action>)
    requires DistinctKeys(deps)
    modifies store
    ensures CheckDependencyObject(deps).Fail? ==>
      r == Err(CheckDependencyObject(deps).error) && store.log == old(store.log)
    ensures CheckDependencyObject(deps).Pass? ==>
      var p := Dependents(action, deps);
      && (p.failure.None? ==>
            r == Ok(action) &&
            store.log == old(store.log) + DispatchedAll(p.dispatched) + [Forwarded(action)])
      && (p.failure.Some? ==>
            r == Err(p.failure.value) &&
            store.log == old(store.log) + DispatchedAll(p.dispatched))
  {
    var check := CheckDependencyObject(deps);
    if check.Fail? {
      return Err(check.error);
    }
    var i := 0;
    while i < |deps|
      invariant 0 <= i <= |deps|
      invariant Dependents(action, deps[..i]).failure.None?
      invariant store.log == old(store.log) + DispatchedAll(Dependents(action, deps[..i]).dispatched)
    {
      var (key, ex) := deps[i];
      var res: Result<Value>;
      if ex.Fn? {
        res := ex.f(action);
      } else {
        res := Utils.DotCaseToObjectProperty(AsValue(action), ex.selector);
      }
      if res.Err? {
        DependentsStopAt(action, deps, i);
        return Err(res.error);
      }
      var payload := res.value;
      DependentsGrow(action, deps, i, payload);
      store.Dispatch(SubAction(key, payload));
      i := i + 1;
    }
    assert deps[..i] == deps;
    var forwarded := store.Forward(action);
    r := Ok(forwarded);
  }

  /**
   * The dependency actions depend on the extractors only through what they
   * yield: two mappings with the same keys whose extractors give the same
   * results for the action dispatch the same actions and fail the same way.
   */
  lemma {:induction false} SameResultsSamePlan(action: Action, d1: Deps, d2: Deps)
    requires AllExtractors(d1) && AllExtractors(d2) && |d1| == |d2|
    requires forall i :: 0 <= i < |d1| ==>
      d1[i].0 == d2[i].0 && Extract(d1[i].1, action) == Extract(d2[i].1, action)
    ensures Dependents(action, d1) == Dependents(action, d2)
    decreases |d1|
  {
    if d1 != [] {
      var n := |d1| - 1;
      var p1, p2 := d1[..n], d2[..n];
      assert forall i :: 0 <= i < n ==> p1[i] == d1[i] && p2[i] == d2[i];
      SameResultsSamePlan(action, p1, p2);
      assert d1[n].0 == d2[n].0 && Extract(d1[n].1, action) == Extract(d2[n].1, action);
    }
  }

  /**
   * A function extractor that yields (or throws) what a path extractor
   * resolves to can stand in for it: the dispatched actions are the same.
   */
  lemma FnReplacesPath(action: Action, deps: Deps, i: nat, f: Action -> Result<Value>)
    requires AllExtractors(deps)
    requires i < |deps| && deps[i].1.Path?
    requires Extract(deps[i].1, action) == f(action)
    ensures AllExtractors(deps[i := (deps[i].0, Fn(f))])
    ensures Dependents(action, deps[i := (deps[i].0, Fn(f))]) == Dependents(action, deps)
  {
    SameResultsSamePlan(action, deps[i := (deps[i].0, Fn(f))], deps);
  }

  /**
   * Among the listeners for the dependency keys, the i-th dispatched action
   * is taken up by the i-th key's listener and by no other.
   */
  lemma DispatchedReachesOwnListener(action: Action, deps: Deps, i: nat, j: nat)
    requires DistinctKeys(deps) && AllExtractors(deps)
    requires i < |Dependents(action, deps).dispatched| && j < |deps|
    ensures IsDependencyFor(Dependents(action, deps).dispatched[i], deps[j].0) <==> i == j
  {
    DependentsContents(action, deps);
    var payload := Extract(deps[i].1, action).value;
    SubActionTargetsItsKey(deps[i].0, payload, deps[j].0);
  }

  // ---------------------------------------------------------------------
  // The scenarios of the unit tests
  // ---------------------------------------------------------------------

  /**
   * The reducer of the unit tests: a missing state defaults to `{}`; a
   * `'foo'` action copies the state and sets `a` to 1, and any other action
   * returns the state itself.
   */
  function TestReducer(state: Value, action: Action): (r: Result<Value>)
    ensures r.Ok?
    ensures action.actionType != Plain("foo") ==>
      r.value == (if state.Undefined? then Obj(map[]) else state)
    ensures action.actionType == Plain("foo") ==>
      r.value.Obj? && r.value.fields.Keys == Own(state).Keys + {"a"} && r.value.fields["a"] == Num(1) &&
      (forall k :: k in Own(state) && k != "a" ==> r.value.fields[k] == Own(state)[k])
  {
    var s := if state.Undefined? then Obj(map[]) else state;
    if action.actionType == Plain("foo") then Ok(Obj(Own(s)["a" := Num(1)])) else Ok(s)
  }

  function Users(): Value
  {
    Obj(map["1" := Str("foo"), "2" := Str("bar"), "3" := Str("baz")])
  }

  function Repo(owner: int, name: string): Value
  {
    Obj(map["owner" := Num(owner), "name" := Str(name)])
  }

  /** The payload of the unit tests: `{ entities: { users, repos } }`. */
  function TestPayload(): Value
  {
    Obj(map["entities" := Obj(map[
      "users" := Users(),
      "repos" := Obj(map["1848" := Repo(1, "spring"), "1574" := Repo(3, "flower"),
                         "1003" := Repo(2, "waterfall")])])])
  }

  /** `{ type: 'FOO', payload }` */
  function Foo(): Action
  {
    Action(false, Plain("FOO"), TestPayload())
  }

  lemma ListenPassesOtherActions()
    ensures Listen("key", TestReducer, Obj(map[]), Action(false, Plain(""), Undefined)) == Ok(Obj(map[]))
    ensures Listen("key", TestReducer, Obj(map[]), Action(false, Plain("foo"), Undefined))
      == Ok(Obj(map["a" := Num(1)]))
    ensures Listen("key", TestReducer, Obj(map["b" := Num(2)]), Action(false, Plain("foo"), Undefined))
      == Ok(Obj(map["a" := Num(1), "b" := Num(2)]))
    ensures Listen("key", TestReducer, Obj(map[]), Action(true, SymKey("otherKey"), TestPayload()))
      == Ok(Obj(map[]))
    ensures Listen("key", TestReducer, Obj(map["_x" := Num(5)]), Action(true, SymKey("otherKey"), TestPayload()))
      == Ok(Obj(map["_x" := Num(5)]))
  {
    assert DataTreePrefix + "key" != "otherKey" by {
      assert (DataTreePrefix + "key")[0] == 'd';
    }
    assert map["b" := Num(2)]["a" := Num(1)] == map["a" := Num(1), "b" := Num(2)];
  }

  lemma ListenMergesMatchingAction()
    ensures Listen("key", TestReducer, Obj(map[]), Action(true, SymKey("dataTree.key"), TestPayload()))
      == Ok(Obj(map["entities" := TestPayload()]))
    ensures Listen("key", TestReducer, Obj(map["_x" := Num(5)]), Action(true, SymKey("dataTree.key"), TestPayload()))
      == Ok(Obj(map["entities" := TestPayload(), "_x" := Num(5)]))
  {
    assert DataTreePrefix + "key" == "dataTree.key";
    MissingEntitiesIsEmpty("key", TestReducer, Obj(map[]), Action(true, SymKey("dataTree.key"), TestPayload()));
    MissingEntitiesIsEmpty("key", TestReducer, Obj(map["_x" := Num(5)]),
      Action(true, SymKey("dataTree.key"), TestPayload()));
    assert map["_x" := Num(5)]["entities" := TestPayload()] == map["entities" := TestPayload(), "_x" := Num(5)];
  }

  /** The segments `payload`, `entities`, `users` lead from `Foo()` to the users. */
  lemma UsersWalk(selector: string)
    ensures Utils.ResolveParts(AsValue(Foo()), ["payload", "entities", "users"], selector) == Ok(Users())
  {
    var parts := ["payload", "entities", "users"];
    var entities := Get(TestPayload(), "entities");
    assert parts[1..] == ["entities", "users"];
    assert parts[1..][1..] == ["users"];
    assert Utils.ResolveParts(entities, ["users"], selector) == Ok(Users());
    assert Utils.ResolveParts(TestPayload(), ["entities", "users"], selector) == Ok(Users());
  }

  lemma UsersPathResolvesAt(selector: string)
    requires selector == Utils.Join(["payload", "entities", "users"], ".")
    ensures Extract(Path(selector), Foo()) == Ok(Users())
  {
    Utils.SplitJoin(["payload", "entities", "users"], '.');
    UsersWalk(selector);
  }

  /** `payload.entities.users` resolves against `Foo()` to the users. */
  lemma UsersPathResolves()
    ensures Extract(Path("payload.entities.users"), Foo()) == Ok(Users())
  {
    UsersPathResolvesAt("payload.entities.users");
  }

  /**
   * `setupTree(store)`: `dataDispatch` whose `next` is the store's own
   * dispatch, run on a fresh store; `submitted` is what the store received,
   * in order.
   */
  method SetupTree(action: Action, deps: Deps) returns (r: Result<Action>, submitted: seq<Action>)
    requires DistinctKeys(deps)
    ensures CheckDependencyObject(deps).Fail? ==>
      r == Err(CheckDependencyObject(deps).error) && submitted == []
    ensures CheckDependencyObject(deps).Pass? ==>
      var p := Dependents(action, deps);
      && (p.failure.None? ==> r == Ok(action) && submitted == p.dispatched + [action])
      && (p.failure.Some? ==> r == Err(p.failure.value) && submitted == p.dispatched)
  {
    var store := new Store();
    r := DataDispatch(store, action, deps);
    submitted := Actions(store.log);
    if CheckDependencyObject(deps).Pass? {
      var p := Dependents(action, deps);
      assert Actions(DispatchedAll(p.dispatched)) == p.dispatched;
    }
  }

  /** `tree(action, {})` submits the original action only. */
  lemma NoDependencies(action: Action)
    ensures CheckDependencyObject([]).Pass?
    ensures Dependents(action, []) == Plan([], None)
  {
  }

  /** `tree({ type: 'FOO' }, { user: 5 })` throws, naming the key and `number`. */
  lemma NumberDependencyRejected()
    ensures CheckDependencyObject([("user", Other(NumberType))]) == Fail(InvalidDependency("user", "number"))
  {
  }

  /** One dependency whose extractor succeeds gives exactly one dependency action. */
  lemma SingleDependencyPlan(action: Action, name: string, ex: Extractor, v: Value)
    requires !ex.Other? && Extract(ex, action) == Ok(v)
    ensures Dependents(action, [(name, ex)]) == Plan([SubAction(name, v)], None)
  {
    assert [(name, ex)][..0] == [];
  }

  lemma UserActionType()
    ensures SubAction("user", Users()) == Action(true, SymKey("dataTree.user"), Users())
  {
    assert DataTreePrefix + "user" == "dataTree.user";
  }

  /**
   * `tree(action, { user: 'payload.entities.users' })` dispatches
   * `{ [DATA_TREE_ID]: true, type: Symbol.for('dataTree.user'), payload: users }`.
   */
  lemma PathUserPlan()
    ensures Dependents(Foo(), [("user", Path("payload.entities.users"))])
      == Plan([Action(true, SymKey("dataTree.user"), Users())], None)
  {
    UsersPathResolves();
    UserActionType();
    SingleDependencyPlan(Foo(), "user", Path("payload.entities.users"), Users());
  }

  /**
   * `action => action.payload.entities.users`: reading `entities` or `users`
   * of undefined or null throws.
   */
  function UsersOf(a: Action): (r: Result<Value>)
    ensures r.Ok? <==> !(a.payload.Undefined? || a.payload.Null?) &&
                       !(Get(a.payload, "entities").Undefined? || Get(a.payload, "entities").Null?)
    ensures r.Ok? ==> r.value == Get(Get(a.payload, "entities"), "users")
  {
    if a.payload.Undefined? || a.payload.Null? then Err(NullishRead("entities"))
    else
      var entities := Get(a.payload, "entities");
      if entities.Undefined? || entities.Null? then Err(NullishRead("users"))
      else Ok(Get(entities, "users"))
  }

  /** `tree(action, { user: action => action.payload.entities.users })` dispatches the same action. */
  lemma FnUserPlan()
    ensures Dependents(Foo(), [("user", Fn(UsersOf))])
      == Plan([Action(true, SymKey("dataTree.user"), Users())], None)
  {
    UserActionType();
    SingleDependencyPlan(Foo(), "user", Fn(UsersOf), Users());
  }

  /**
   * The same function dependency on `{ type: 'FOO' }`, which has no payload,
   * throws before anything is dispatched, so the original action is not
   * forwarded.
   */
  lemma FnDependencyThrows()
    ensures Dependents(Action(false, Plain("FOO"), Undefined), [("user", Fn(UsersOf))])
      == Plan([], Some(NullishRead("entities")))
  {
    assert [("user", Fn(UsersOf))][..0] == [];
  }
}
