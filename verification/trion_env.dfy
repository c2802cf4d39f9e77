/**
 * Runtime values and the scope chain of the Trion interpreter
 * (trion/interpreter.py, `Environment` and `TrionFunction`).
 *
 * Python environments are mutable objects linked by `enclosing` references.
 * Here they live in a store: a map from frame ids to frames, each frame
 * naming its parent by id. A lookup follows a parent only when its id is
 * smaller, which every frame the interpreter creates satisfies (a new frame
 * takes the next unused id and points to an existing one).
 */
module TrionEnv {
  import opened Common
  import opened TrionErrors
  import opened TrionAst

  /**
   * Why a computation failed: a Trion error object, or an exception raised
   * by Python itself (class name and its `str()` text).
   */
  datatype Fault = Trion(err: TrionError) | Host(pyClass: string, text: string)

  /**
   * The Python values a Trion program can hold. A user function records
   * its declaration and the id of the frame it closes over; `id` stands for
   * object identity, which `==` compares.
   */
  datatype Value =
    | VNull
    | VBool(b: bool)
    | VInt(i: int)
    | VStr(s: string)
    | VFunc(id: nat, name: string, params: seq<string>, body: Stmt, closure: nat)
    | VBuiltin(builtin: string)
    | VError(fault: Fault)

  /** `str(e)` of an exception object. */
  function FaultText(f: Fault): string {
    match f
    case Trion(e) => Render(e)
    case Host(_, t) => t
  }

  /** One `Environment`: bindings, the names declared `const`, and the enclosing frame. */
  datatype Frame = Frame(values: map<string, Value>, constants: set<string>, parent: Option<nat>)

  datatype Store = Store(frames: map<nat, Frame>, next: nat)

  /** Every frame id is below the allocation counter, so a new frame never overwrites one. */
  predicate Fresh(s: Store) {
    forall id :: id in s.frames ==> id < s.next
  }

  /** `Environment(enclosing)`: a new, empty frame under the next unused id. */
  function NewFrame(s: Store, parent: Option<nat>): (r: (Store, nat))
    ensures r.1 == s.next && r.0.next == s.next + 1
    ensures r.0.frames == s.frames[s.next := Frame(map[], {}, parent)]
    ensures Fresh(s) ==> Fresh(r.0) && r.1 !in s.frames
  {
    (Store(s.frames[s.next := Frame(map[], {}, parent)], s.next + 1), s.next)
  }

  /** The parent a lookup moves to from `id`, if any. */
  function Up(s: Store, id: nat): Option<nat>
    requires id in s.frames
  {
    var p := s.frames[id].parent;
    if p.Some? && p.value < id then p else None
  }

  /** The frames a lookup from `id` visits, innermost first. */
  function Chain(s: Store, id: nat): (r: seq<nat>)
    decreases id
    ensures forall k :: 0 <= k < |r| ==> r[k] in s.frames
    ensures id in s.frames ==> |r| > 0 && r[0] == id
    ensures id !in s.frames ==> r == []
  {
    if id !in s.frames then []
    else if Up(s, id).None? then [id]
    else [id] + Chain(s, Up(s, id).value)
  }

  predicate Defines(s: Store, id: nat, name: string) {
    id in s.frames && name in s.frames[id].values
  }

  /** Position `k` of the chain holds the innermost frame that binds `name`. */
  predicate Innermost(s: Store, id: nat, name: string, k: nat) {
    var c := Chain(s, id);
    k < |c| && Defines(s, c[k], name) && forall j :: 0 <= j < k ==> !Defines(s, c[j], name)
  }

  predicate Unbound(s: Store, id: nat, name: string) {
    var c := Chain(s, id);
    forall k :: 0 <= k < |c| ==> !Defines(s, c[k], name)
  }

  function Undefined(name: string): TrionError {
    TrionError(NameError, "Undefined variable '" + name + "'.", None, None, None)
  }

  function ConstantAssigned(name: string): TrionError {
    TrionError(RuntimeError, "Cannot assign to constant '" + name + "'.", None, None, None)
  }

  /** `Environment.get`. */
  function Get(s: Store, id: nat, name: string): (r: Result<Value, TrionError>)
    decreases id
    ensures r.Err? ==> r.error == Undefined(name)
  {
    if id !in s.frames then Err(Undefined(name))
    else if name in s.frames[id].values then Ok(s.frames[id].values[name])
    else if Up(s, id).Some? then Get(s, Up(s, id).value, name)
    else Err(Undefined(name))
  }

  /** `Environment.assign`: rebinds the name in the innermost frame that binds it. */
  function Assign(s: Store, id: nat, name: string, v: Value): (r: Result<Store, TrionError>)
    decreases id
    ensures r.Err? ==> r.error in {Undefined(name), ConstantAssigned(name)}
    ensures r.Ok? ==> r.value.next == s.next && r.value.frames.Keys == s.frames.Keys
    ensures r.Ok? ==> forall o :: o in s.frames ==>
      r.value.frames[o].values.Keys == s.frames[o].values.Keys &&
      r.value.frames[o].constants == s.frames[o].constants && r.value.frames[o].parent == s.frames[o].parent
    ensures r.Ok? ==> forall o :: o in s.frames && o > id ==> r.value.frames[o] == s.frames[o]
  {
    if id !in s.frames then Err(Undefined(name))
    else if name in s.frames[id].values then
      if name in s.frames[id].constants then Err(ConstantAssigned(name))
      else
        var f := s.frames[id];
        Ok(s.(frames := s.frames[id := f.(values := f.values[name := v])]))
    else if Up(s, id).Some? then Assign(s, Up(s, id).value, name, v)
    else Err(Undefined(name))
  }

  /** `Environment.define`: binds in the given frame itself, shadowing outer bindings. */
  function Define(s: Store, id: nat, name: string, v: Value, isConst: bool): (r: Store)
    requires id in s.frames
    ensures r.next == s.next && r.frames.Keys == s.frames.Keys
    ensures r.frames[id].values == s.frames[id].values[name := v]
    ensures r.frames[id].constants == if isConst then s.frames[id].constants + {name} else s.frames[id].constants
    ensures r.frames[id].parent == s.frames[id].parent
    ensures forall o :: o in s.frames && o != id ==> r.frames[o] == s.frames[o]
  {
    var f := s.frames[id];
    s.(frames := s.frames[id := Frame(f.values[name := v], if isConst then f.constants + {name} else f.constants, f.parent)])
  }

  /** `get` returns the binding of the innermost frame that binds the name, and fails exactly when none does. */
  lemma {:induction false} GetFindsInnermost(s: Store, id: nat, name: string)
    decreases id
    ensures Get(s, id, name).Ok? ==>
      exists k: nat :: Innermost(s, id, name, k) && Get(s, id, name).value == s.frames[Chain(s, id)[k]].values[name]
    ensures Get(s, id, name).Err? <==> Unbound(s, id, name)
  {
    var c := Chain(s, id);
    if id !in s.frames {
    } else if name in s.frames[id].values {
      assert Innermost(s, id, name, 0);
    } else if Up(s, id).Some? {
      var p := Up(s, id).value;
      GetFindsInnermost(s, p, name);
      assert c == [id] + Chain(s, p);
      if Get(s, p, name).Ok? {
        var k: nat :| Innermost(s, p, name, k) && Get(s, p, name).value == s.frames[Chain(s, p)[k]].values[name];
        assert c[k + 1] == Chain(s, p)[k];
        assert Innermost(s, id, name, k + 1) by {
          forall j | 0 <= j < k + 1 ensures !Defines(s, c[j], name) {
            if j > 0 { assert c[j] == Chain(s, p)[j - 1]; }
          }
        }
      } else {
        forall k | 0 <= k < |c| ensures !Defines(s, c[k], name) {
          if k > 0 { assert c[k] == Chain(s, p)[k - 1]; }
        }
      }
    } else {
      assert c == [id];
    }
  }

  /**
   * `assign` changes exactly the innermost binding of the name, and only when
   * that binding is not constant; it raises NameError when nothing binds the
   * name and RuntimeError when the innermost binding is constant.
   */
  lemma {:induction false} AssignUpdatesInnermost(s: Store, id: nat, name: string, v: Value)
    decreases id
    ensures Assign(s, id, name, v).Ok? ==>
      exists k: nat :: Innermost(s, id, name, k) && name !in s.frames[Chain(s, id)[k]].constants &&
        var f := s.frames[Chain(s, id)[k]];
        Assign(s, id, name, v).value == s.(frames := s.frames[Chain(s, id)[k] := f.(values := f.values[name := v])])
  {
    if id in s.frames && name in s.frames[id].values {
      assert Innermost(s, id, name, 0);
    } else if id in s.frames && Up(s, id).Some? {
      var p := Up(s, id).value;
      AssignUpdatesInnermost(s, p, name, v);
      ChainStep(s, id, name);
      if Assign(s, p, name, v).Ok? {
        var k: nat :| Innermost(s, p, name, k) && name !in s.frames[Chain(s, p)[k]].constants &&
          var f := s.frames[Chain(s, p)[k]];
          Assign(s, p, name, v).value == s.(frames := s.frames[Chain(s, p)[k] := f.(values := f.values[name := v])]);
        assert Innermost(s, id, name, k + 1) && Chain(s, id)[k + 1] == Chain(s, p)[k];
      }
    }
  }

  lemma {:induction false} AssignUndefinedIffUnbound(s: Store, id: nat, name: string, v: Value)
    decreases id
    ensures Assign(s, id, name, v) == Err(Undefined(name)) <==> Unbound(s, id, name)
  {
    assert Undefined(name) != ConstantAssigned(name);
    if id in s.frames && name !in s.frames[id].values && Up(s, id).Some? {
      AssignUndefinedIffUnbound(s, Up(s, id).value, name, v);
      ChainStep(s, id, name);
    } else if id in s.frames && name in s.frames[id].values {
      assert Defines(s, Chain(s, id)[0], name);
    } else if id in s.frames {
      assert Chain(s, id) == [id];
    }
  }

  lemma {:induction false} AssignConstantIffInnermostConstant(s: Store, id: nat, name: string, v: Value)
    decreases id
    ensures Assign(s, id, name, v) == Err(ConstantAssigned(name)) <==>
      exists k: nat :: Innermost(s, id, name, k) && name in s.frames[Chain(s, id)[k]].constants
  {
    assert Undefined(name) != ConstantAssigned(name);
    if id !in s.frames {
    } else if name in s.frames[id].values {
      assert Innermost(s, id, name, 0);
      assert Defines(s, Chain(s, id)[0], name);
    } else if Up(s, id).Some? {
      AssignConstantIffInnermostConstant(s, Up(s, id).value, name, v);
      ConstantStep(s, id, name);
    } else {
      assert Chain(s, id) == [id];
    }
  }

  /** Whether the innermost binding of `name` seen from `id` is constant. */
  ghost predicate InnermostConstant(s: Store, id: nat, name: string) {
    exists k: nat :: Innermost(s, id, name, k) && name in s.frames[Chain(s, id)[k]].constants
  }

  /** The innermost binding seen from a frame that does not bind the name is its parent's. */
  lemma ConstantStep(s: Store, id: nat, name: string)
    requires id in s.frames && name !in s.frames[id].values && Up(s, id).Some?
    ensures InnermostConstant(s, id, name) <==> InnermostConstant(s, Up(s, id).value, name)
  {
    var p := Up(s, id).value;
    ChainStep(s, id, name);
    if InnermostConstant(s, id, name) {
      var k: nat :| Innermost(s, id, name, k) && name in s.frames[Chain(s, id)[k]].constants;
      assert Innermost(s, p, name, k - 1) && Chain(s, id)[k] == Chain(s, p)[k - 1];
    }
    if InnermostConstant(s, p, name) {
      var k: nat :| Innermost(s, p, name, k) && name in s.frames[Chain(s, p)[k]].constants;
      assert Innermost(s, id, name, k + 1) && Chain(s, id)[k + 1] == Chain(s, p)[k];
    }
  }

  /** One step up the chain from a frame that does not bind the name. */
  lemma ChainStep(s: Store, id: nat, name: string)
    requires id in s.frames && name !in s.frames[id].values && Up(s, id).Some?
    ensures var p := Up(s, id).value;
      && (forall k :: 0 <= k < |Chain(s, p)| ==> Chain(s, id)[k + 1] == Chain(s, p)[k])
      && (forall k: nat :: Innermost(s, id, name, k) <==> k > 0 && Innermost(s, p, name, k - 1))
      && (forall k: nat :: Innermost(s, p, name, k) ==> Innermost(s, id, name, k + 1))
      && (Unbound(s, id, name) <==> Unbound(s, p, name))
  {
    var p := Up(s, id).value;
    var c := Chain(s, id);
    assert c == [id] + Chain(s, p);
    forall k: nat | Innermost(s, id, name, k) ensures k > 0 && Innermost(s, p, name, k - 1) {
      forall j | 0 <= j < k - 1 ensures !Defines(s, Chain(s, p)[j], name) {
        assert Chain(s, p)[j] == c[j + 1];
      }
    }
    forall k: nat | Innermost(s, p, name, k) ensures Innermost(s, id, name, k + 1) {
      forall j | 0 <= j < k + 1 ensures !Defines(s, c[j], name) {
        if j > 0 {
          assert c[j] == Chain(s, p)[j - 1];
        }
      }
    }
    if Unbound(s, p, name) {
      forall k | 0 <= k < |c| ensures !Defines(s, c[k], name) {
        if k > 0 {
          assert c[k] == Chain(s, p)[k - 1];
        }
      }
    }
    if Unbound(s, id, name) {
      forall k | 0 <= k < |Chain(s, p)| ensures !Defines(s, Chain(s, p)[k], name) {
        assert Chain(s, p)[k] == c[k + 1];
      }
    }
  }

  /** `define` makes the name visible from its frame with the new value, and a constant stays constant. */
  lemma DefineShadows(s: Store, id: nat, name: string, v: Value, isConst: bool)
    requires id in s.frames
    ensures Get(Define(s, id, name, v, isConst), id, name) == Ok(v)
    ensures s.frames[id].constants <= Define(s, id, name, v, isConst).frames[id].constants
    ensures isConst ==> Assign(Define(s, id, name, v, isConst), id, name, v) == Err(ConstantAssigned(name))
  {
  }

  /** After a successful `assign`, `get` from the same frame returns the assigned value. */
  lemma {:induction false} AssignThenGet(s: Store, id: nat, name: string, v: Value)
    requires Assign(s, id, name, v).Ok?
    ensures Get(Assign(s, id, name, v).value, id, name) == Ok(v)
    decreases id
  {
    var t := Assign(s, id, name, v).value;
    if name !in s.frames[id].values {
      var p := Up(s, id).value;
      AssignThenGet(s, p, name, v);
      assert t.frames[id] == s.frames[id];
      assert Up(t, id) == Up(s, id);
    }
  }
}
