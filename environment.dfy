/** Variable scopes. Each `Environment` of the interpreter is a frame: a map from names to
    values and an optional enclosing frame. Frames live in an arena (a sequence) and refer to
    each other by index, so a frame that a closure captured stays reachable after its block
    ends, as the Java object does. A frame encloses only frames created after it. */
module Environments {
  import opened Tokens
  import opened Values

  datatype Frame = Frame(values: map<string, Value>, enclosing: Option<nat>)

  /** Every frame's enclosing frame was created before it, so scope chains are finite. */
  predicate WellFormed(frames: seq<Frame>)
  {
    forall i | 0 <= i < |frames| :: frames[i].enclosing.Some? ==> frames[i].enclosing.value < i
  }

  /** `h` names a frame of a well-formed arena. */
  predicate Handle(frames: seq<Frame>, h: nat)
  {
    WellFormed(frames) && h < |frames|
  }

  /** A value refers only to frames of an arena of `n` frames: a function's closure is one of
      them. */
  predicate Within(v: Value, n: nat)
  {
    v.Fun? ==> v.callee.closure < n
  }

  /** Every value bound in the arena refers only to frames of the arena, so calling any
      function found in it enters a frame that exists. */
  predicate Closed(frames: seq<Frame>)
  {
    forall i, name | 0 <= i < |frames| && name in frames[i].values :: Within(frames[i].values[name], |frames|)
  }

  /** Two arenas with the same frames, the same scope chains and the same names declared in
      each frame; only the values bound to the names may differ. */
  predicate SameShape(a: seq<Frame>, b: seq<Frame>)
  {
    && |a| == |b|
    && forall i | 0 <= i < |a| :: a[i].enclosing == b[i].enclosing && a[i].values.Keys == b[i].values.Keys
  }

  /** The frame on the chain starting at `h` that declares `name`, searching outwards. */
  function Resolve(frames: seq<Frame>, h: nat, name: string): (r: Option<nat>)
    requires Handle(frames, h)
    ensures r.Some? ==> r.value <= h && name in frames[r.value].values
    ensures name in frames[h].values ==> r == Some(h)
    decreases h
  {
    if name in frames[h].values then Some(h)
    else
      match frames[h].enclosing
      case None => None
      case Some(e) => Resolve(frames, e, name)
  }

  /** `Environment.get`: the innermost binding of the name, or "Undefined variable". */
  function Get(frames: seq<Frame>, h: nat, name: Token): (r: Result<Value>)
    requires Handle(frames, h)
    ensures r.Err? <==> Resolve(frames, h, name.lexeme).None?
    ensures r.Err? ==> r.failure == RuntimeError(name, UndefinedVariable(name.lexeme))
    ensures r.Ok? && Closed(frames) ==> Within(r.value, |frames|)
  {
    match Resolve(frames, h, name.lexeme)
    case Some(i) => Ok(frames[i].values[name.lexeme])
    case None => Err(RuntimeError(name, UndefinedVariable(name.lexeme)))
  }

  /** Binds `name` to `v` in frame `i` itself, adding the name or replacing its value. */
  function Store(frames: seq<Frame>, i: nat, name: string, v: Value): (r: seq<Frame>)
    requires i < |frames|
    ensures |r| == |frames|
    ensures forall j | 0 <= j < |r| :: r[j].enclosing == frames[j].enclosing
    ensures forall j | 0 <= j < |r| && j != i :: r[j] == frames[j]
    ensures r[i].values == frames[i].values[name := v]
    ensures WellFormed(frames) ==> WellFormed(r)
    ensures Closed(frames) && Within(v, |frames|) ==> Closed(r)
  {
    frames[i := frames[i].(values := frames[i].values[name := v])]
  }

  /** `Environment.define`: declares (or redeclares) the name in the frame `h` itself. */
  function Define(frames: seq<Frame>, h: nat, name: string, v: Value): (r: seq<Frame>)
    requires Handle(frames, h)
    ensures Handle(r, h) && |r| == |frames|
    ensures forall j | 0 <= j < |r| :: r[j].enclosing == frames[j].enclosing && frames[j].values.Keys <= r[j].values.Keys
    ensures Closed(frames) && Within(v, |frames|) ==> Closed(r)
  {
    Store(frames, h, name, v)
  }

  /** `Environment.assign`: rebinds the innermost declaration of the name, or raises
      "Undefined variable" and changes nothing. */
  function Assign(frames: seq<Frame>, h: nat, name: Token, v: Value): (r: Result<seq<Frame>>)
    requires Handle(frames, h)
    ensures r.Ok? ==> SameShape(frames, r.value) && Handle(r.value, h)
    ensures r.Ok? && Closed(frames) && Within(v, |frames|) ==> Closed(r.value)
  {
    match Resolve(frames, h, name.lexeme)
    case Some(i) => Ok(Store(frames, i, name.lexeme, v))
    case None => Err(RuntimeError(name, UndefinedVariable(name.lexeme)))
  }

  /** `new Environment(enclosing)`: a fresh empty frame whose enclosing frame is `h`. */
  function Push(frames: seq<Frame>, h: nat): (r: seq<Frame>)
    requires Handle(frames, h)
    ensures Handle(r, |frames|) && |r| == |frames| + 1 && r[..|frames|] == frames
    ensures Closed(frames) ==> Closed(r)
  {
    frames + [Frame(map[], Some(h))]
  }

  /** The parameter loop of `LoxFunction.call`: each parameter name defined in frame `h`, in
      order, as the argument at its position. */
  function Bind(frames: seq<Frame>, h: nat, params: seq<Token>, arguments: seq<Value>): (r: seq<Frame>)
    requires Handle(frames, h) && |params| == |arguments|
    ensures Handle(r, h) && |r| == |frames|
    ensures forall j | 0 <= j < |r| :: r[j].enclosing == frames[j].enclosing && frames[j].values.Keys <= r[j].values.Keys
    ensures forall j | 0 <= j < |r| && j != h :: r[j] == frames[j]
    ensures Closed(frames) && (forall a | a in arguments :: Within(a, |frames|)) ==> Closed(r)
    decreases |params|
  {
    if params == [] then frames
    else
      var last := |params| - 1;
      Define(Bind(frames, h, params[..last], arguments[..last]), h, params[last].lexeme, arguments[last])
  }

  // ---------------------------------------------------------------------------------------
  // What scopes promise.

  /** Lookups depend only on the scope chains and on which names each frame declares. */
  lemma {:induction false} ResolveDependsOnShape(a: seq<Frame>, b: seq<Frame>, h: nat, name: string)
    requires Handle(a, h) && WellFormed(b)
    requires SameShape(a, b)
    ensures Resolve(a, h, name) == Resolve(b, h, name)
    decreases h
  {
    assert a[h].enclosing == b[h].enclosing && a[h].values.Keys == b[h].values.Keys;
    assert (name in a[h].values) == (name in b[h].values);
    if name !in a[h].values && a[h].enclosing.Some? {
      ResolveDependsOnShape(a, b, a[h].enclosing.value, name);
    }
  }

  /** Lookups through a frame of an arena ignore the frames appended after it. */
  lemma {:induction false} ResolveInPrefix(frames: seq<Frame>, more: seq<Frame>, h: nat, name: string)
    requires Handle(frames, h) && WellFormed(frames + more)
    ensures Resolve(frames + more, h, name) == Resolve(frames, h, name)
    decreases h
  {
    assert (frames + more)[h] == frames[h];
    if name !in frames[h].values && frames[h].enclosing.Some? {
      ResolveInPrefix(frames, more, frames[h].enclosing.value, name);
    }
  }

  /** A name just defined in a frame reads back as the defined value there. */
  lemma GetAfterDefine(frames: seq<Frame>, h: nat, name: Token, v: Value)
    requires Handle(frames, h)
    ensures Get(Define(frames, h, name.lexeme, v), h, name) == Ok(v)
  {
  }

  /** Defining a name leaves the lookup of every other name, from every frame, unchanged. */
  lemma DefineKeepsOtherNames(frames: seq<Frame>, h: nat, name: string, v: Value, g: nat, other: Token)
    requires Handle(frames, h) && Handle(frames, g) && other.lexeme != name
    ensures Get(Define(frames, h, name, v), g, other) == Get(frames, g, other)
  {
    var after := Define(frames, h, name, v);
    ResolveUnaffected(frames, after, g, other, h, name);
  }

  /** Lookups of `other` agree in two arenas that differ only in the binding of a different
      name in one frame. */
  lemma {:induction false} ResolveUnaffected(a: seq<Frame>, b: seq<Frame>, g: nat, other: Token, h: nat, name: string)
    requires Handle(a, g) && WellFormed(b) && |a| == |b| && h < |a| && other.lexeme != name
    requires forall j | 0 <= j < |a| :: a[j].enclosing == b[j].enclosing
    requires forall j | 0 <= j < |a| && j != h :: a[j] == b[j]
    requires name in b[h].values
    requires b[h].values == a[h].values[name := b[h].values[name]]
    ensures Get(a, g, other) == Get(b, g, other)
    decreases g
  {
    assert (other.lexeme in a[g].values) == (other.lexeme in b[g].values);
    if other.lexeme in a[g].values {
      assert a[g].values[other.lexeme] == b[g].values[other.lexeme];
    } else if a[g].enclosing.Some? {
      ResolveUnaffected(a, b, a[g].enclosing.value, other, h, name);
    }
  }

  /** An assignment succeeds exactly when the name is visible, and then the name reads back as
      the assigned value; when it fails, it fails as a lookup would. */
  lemma GetAfterAssign(frames: seq<Frame>, h: nat, name: Token, v: Value)
    requires Handle(frames, h)
    ensures Assign(frames, h, name, v).Ok? <==> Get(frames, h, name).Ok?
    ensures Assign(frames, h, name, v).Err? ==> Assign(frames, h, name, v).failure == Get(frames, h, name).failure
    ensures Assign(frames, h, name, v).Ok? ==> Get(Assign(frames, h, name, v).value, h, name) == Ok(v)
  {
    if Assign(frames, h, name, v).Ok? {
      var after := Assign(frames, h, name, v).value;
      ResolveDependsOnShape(frames, after, h, name.lexeme);
    }
  }

  /** An assignment leaves the lookup of every other name, from every frame, unchanged. */
  lemma AssignKeepsOtherNames(frames: seq<Frame>, h: nat, name: Token, v: Value, g: nat, other: Token)
    requires Handle(frames, h) && Handle(frames, g) && other.lexeme != name.lexeme
    requires Assign(frames, h, name, v).Ok?
    ensures Get(Assign(frames, h, name, v).value, g, other) == Get(frames, g, other)
  {
    var i := Resolve(frames, h, name.lexeme).value;
    ResolveUnaffected(frames, Assign(frames, h, name, v).value, g, other, i, name.lexeme);
  }

  /** A fresh frame sees every binding of the frame it encloses, and a name declared in the
      fresh frame is invisible from the enclosing one. */
  lemma PushedFrameSeesEnclosing(frames: seq<Frame>, h: nat, name: Token, inner: string, v: Value)
    requires Handle(frames, h)
    ensures Get(Push(frames, h), |frames|, name) == Get(frames, h, name)
    ensures Get(Define(Push(frames, h), |frames|, inner, v), h, name) == Get(frames, h, name)
  {
    var pushed := Push(frames, h);
    assert pushed == frames + [Frame(map[], Some(h))];
    ResolveInPrefix(frames, [Frame(map[], Some(h))], h, name.lexeme);
    var defined := Define(pushed, |frames|, inner, v);
    assert defined == frames + [Frame(map[inner := v], Some(h))];
    ResolveInPrefix(frames, [Frame(map[inner := v], Some(h))], h, name.lexeme);
  }

  /** After the parameter loop, a parameter reads as the argument at the last position that
      carries its name; the frame declares no other new name. */
  lemma {:induction false} BindBindsParameters(frames: seq<Frame>, h: nat, params: seq<Token>, arguments: seq<Value>, i: nat)
    requires Handle(frames, h) && |params| == |arguments| && i < |params|
    requires forall j | i < j < |params| :: params[j].lexeme != params[i].lexeme
    ensures var r := Bind(frames, h, params, arguments);
      params[i].lexeme in r[h].values && r[h].values[params[i].lexeme] == arguments[i]
    ensures Get(Bind(frames, h, params, arguments), h, params[i]) == Ok(arguments[i])
    decreases |params|
  {
    var last := |params| - 1;
    var before := Bind(frames, h, params[..last], arguments[..last]);
    if i < last {
      BindBindsParameters(frames, h, params[..last], arguments[..last], i);
      assert params[..last][i] == params[i] && arguments[..last][i] == arguments[i];
      var after := Bind(frames, h, params, arguments);
      assert after[h].values == before[h].values[params[last].lexeme := arguments[last]];
    }
  }

  /** The parameter loop leaves the lookup of every name that is not a parameter unchanged,
      from every frame. */
  lemma {:induction false} BindKeepsOtherNames(frames: seq<Frame>, h: nat, params: seq<Token>, arguments: seq<Value>, other: Token)
    requires Handle(frames, h) && |params| == |arguments|
    requires forall j | 0 <= j < |params| :: params[j].lexeme != other.lexeme
    ensures forall g | 0 <= g < |frames| :: Get(Bind(frames, h, params, arguments), g, other) == Get(frames, g, other)
    decreases |params|
  {
    if params != [] {
      var last := |params| - 1;
      var before := Bind(frames, h, params[..last], arguments[..last]);
      BindKeepsOtherNames(frames, h, params[..last], arguments[..last], other);
      forall g | 0 <= g < |frames|
        ensures Get(Bind(frames, h, params, arguments), g, other) == Get(frames, g, other)
      {
        DefineKeepsOtherNames(before, h, params[last].lexeme, arguments[last], g, other);
      }
    }
  }

  /** Defining a name in a frame leaves every lookup from an older frame unchanged: scope
      chains lead only to older frames. */
  lemma {:induction false} DefineInNewerFrame(frames: seq<Frame>, h: nat, g: nat, name: string, v: Value, other: Token)
    requires Handle(frames, h) && g < h
    ensures Get(Define(frames, h, name, v), g, other) == Get(frames, g, other)
    decreases g
  {
    var after := Define(frames, h, name, v);
    assert after[g] == frames[g];
    if other.lexeme !in frames[g].values && frames[g].enclosing.Some? {
      DefineInNewerFrame(frames, h, frames[g].enclosing.value, name, v, other);
    }
  }
}
