/** `Configurable::Config`: a node of nested configuration data. A node is
    filled once, unlocked, from a Hash; then it locks, and from then on every
    read and every write checks its key against the node's current key set.
    Hash values are wrapped, recursively, in nodes of their own. */
module ConfigStore {
  import opened Errors
  import opened Values

  /** What a node stores under a key: a value kept verbatim, or a nested node
      that wraps a Hash. `Nil` is Ruby's `nil`, what a read of a missing key
      yields while a node is still unlocked. */
  datatype Val = Nil | Plain(x: int) | Nested(node: Config)

  /** A member name, as `method_missing` reads it: a write to a key or a read
      of a key. */
  datatype Access = Write(key: string) | Read(key: string)

  /** What an attribute-style call evaluates to: the value read, or, for a
      write, the argument assigned (a Ruby assignment evaluates to its
      right-hand side). */
  datatype Reply = Value(v: Val) | Assigned(arg: Shape)

  /** Entry `i` is the last entry of `input` whose key normalises to `s`. */
  ghost predicate LastWith(input: seq<(Key, Shape)>, i: int, s: string)
  {
    0 <= i < |input| && ToSym(input[i].0) == s &&
    forall j :: i < j < |input| ==> ToSym(input[j].0) != s
  }

  /** The shape that writing `input` entry by entry, in order, leaves under
      the name `s`, if any; it is the value of one of the entries, so it is
      smaller than the input. */
  function Lookup(input: seq<(Key, Shape)>, s: string): (r: Option<Shape>)
    ensures r.Some? ==> exists i :: 0 <= i < |input| && input[i].1 == r.value
  {
    if input == [] then None
    else if ToSym(input[|input| - 1].0) == s then Some(input[|input| - 1].1)
    else
      var r := Lookup(input[..|input| - 1], s);
      assert r.Some? ==> exists i :: 0 <= i < |input| && input[i].1 == r.value by {
        if r.Some? {
          var i :| 0 <= i < |input| - 1 && input[..|input| - 1][i].1 == r.value;
          assert input[i] == input[..|input| - 1][i];
        }
      }
      r
  }

  /** The value `Lookup` finds is that of the last entry whose key
      normalises to `s`: later writes override earlier ones. */
  lemma {:induction false} LookupFindsLast(input: seq<(Key, Shape)>, s: string)
    ensures Lookup(input, s).Some? ==>
      exists i :: LastWith(input, i, s) && input[i].1 == Lookup(input, s).value
  {
    if input != [] && ToSym(input[|input| - 1].0) != s {
      var init := input[..|input| - 1];
      LookupFindsLast(init, s);
      if Lookup(init, s).Some? {
        var i :| LastWith(init, i, s) && init[i].1 == Lookup(init, s).value;
        assert init[i] == input[i];
        assert LastWith(input, i, s);
      }
    } else if input != [] {
      assert LastWith(input, |input| - 1, s);
    }
  }

  /** Writing `input` leaves a value under `s` exactly when some key of
      `input` normalises to `s`. */
  lemma {:induction false} LookupFindsEveryKey(input: seq<(Key, Shape)>, s: string)
    ensures Lookup(input, s).Some? <==> s in KeysOf(input)
  {
    if input != [] {
      assert input[..|input| - 1 + 1] == input;
      KeysOfExtend(input, |input| - 1);
      LookupFindsEveryKey(input[..|input| - 1], s);
    }
  }

  /** Method names that `method_missing` turns into writes: a name of at least
      two characters that ends in `=` writes the key named by the rest;
      every other name, a bare `=` included, reads the key of that name. */
  function Dispatch(name: string): (a: Access)
    ensures a.Write? <==> |name| >= 2 && name[|name| - 1] == '='
    ensures a.Write? ==> name == a.key + "=" && a.key != []
    ensures a.Read? ==> a.key == name
  {
    if |name| >= 2 && name[|name| - 1] == '=' then Write(name[..|name| - 1]) else Read(name)
  }

  /** The setter name of every key is dispatched as a write to that key. */
  lemma SetterDispatch(key: string)
    requires key != []
    ensures Dispatch(key + "=") == Write(key)
  {
  }

  class Config {
    var data: map<string, Val>
    var locked: bool
    /** This node and every node below it. */
    ghost var Repr: set<object>

    /** The nodes form a tree: each nested node lies inside this node's
        footprint, this node does not lie inside a nested one's, and nested
        nodes under two different keys share no node. */
    ghost predicate Valid()
      reads this, Repr
      decreases Repr
    {
      this in Repr &&
      (forall s :: s in data && data[s].Nested? ==>
        data[s].node in Repr && data[s].node.Repr <= Repr &&
        this !in data[s].node.Repr && data[s].node.Valid()) &&
      forall s, t :: s in data && t in data && s != t && data[s].Nested? && data[t].Nested? ==>
        data[s].node.Repr !! data[t].node.Repr
    }

    /** The node holds exactly what writing `input` in order leaves: the
        normalised keys of `input`, under each the last scalar verbatim, or a
        locked nested node that in turn holds that last Hash. */
    ghost predicate Stores(input: seq<(Key, Shape)>)
      reads this, Repr
      decreases Hash(input)
    {
      (forall s :: s in data <==> s in KeysOf(input)) &&
      forall s :: s in data ==>
        match Lookup(input, s)
        case None => false
        case Some(Scalar(x)) => data[s] == Plain(x)
        case Some(Hash(h)) =>
          data[s].Nested? && data[s].node in Repr && data[s].node.Repr <= Repr &&
          data[s].node.locked && data[s].node.Stores(h)
    }

    /** `initialize`: write every entry while unlocked, then lock. */
    constructor (input: seq<(Key, Shape)>)
      ensures Valid() && fresh(Repr)
      ensures locked && Stores(input)
      decreases Hash(input), 2
    {
      data := map[];
      locked := false;
      Repr := {this};
      new;
      Update(input);
    }

    /** `update!`: write the entries one by one, then lock. Only the
        constructor calls it, on an empty, unlocked node. */
    method Update(input: seq<(Key, Shape)>)
      requires Valid() && !locked && data == map[]
      modifies this
      ensures Valid() && fresh(Repr - old(Repr))
      ensures locked && Stores(input)
      decreases Hash(input), 1
    {
      var i := 0;
      while i < |input|
        invariant 0 <= i <= |input|
        invariant Valid() && !locked && fresh(Repr - old(Repr))
        invariant Stores(input[..i])
      {
        WriteEntry(input, i);
        i := i + 1;
      }
      assert input[..i] == input;
      label unlocked:
      Lock();
      forall t | t in data
        ensures match Lookup(input, t)
          case None => false
          case Some(Scalar(x)) => data[t] == Plain(x)
          case Some(Hash(h)) =>
            data[t].Nested? && data[t].node in Repr && data[t].node.Repr <= Repr &&
            data[t].node.locked && data[t].node.Stores(h)
      {
        if data[t].Nested? {
          assert old@unlocked(data[t].node.Valid());
        }
      }
    }

    /** One step of `update!`: `self[k] = v` for the entry at `i`. On an
        unlocked node it cannot raise, and what the node holds then reflects
        one more entry. */
    method WriteEntry(input: seq<(Key, Shape)>, i: nat)
      requires i < |input|
      requires Valid() && !locked && Stores(input[..i])
      modifies this
      ensures Valid() && !locked && fresh(Repr - old(Repr))
      ensures Stores(input[..i + 1])
      decreases Hash(input), 0
    {
      ghost var before, done, next := data, input[..i], input[..i + 1];
      assert next[..i] == done && next[i] == input[i];
      var k, v := input[i].0, input[i].1;
      label written:
      var _ := Set(k, v);
      KeysOfExtend(input, i);
      assert Lookup(next, ToSym(k)) == Some(v);
      forall t | t in data && t != ToSym(k)
        ensures match Lookup(next, t)
          case None => false
          case Some(Scalar(x)) => data[t] == Plain(x)
          case Some(Hash(h)) =>
            data[t].Nested? && data[t].node in Repr && data[t].node.Repr <= Repr &&
            data[t].node.locked && data[t].node.Stores(h)
      {
        assert Lookup(next, t) == Lookup(done, t);
        assert data[t] == before[t];
        if data[t].Nested? {
          assert old@written(data[t].node.Valid());
        }
      }
    }

    /** `lock!`. */
    method Lock()
      modifies this`locked
      ensures locked
    {
      locked := true;
    }

    /** `locked?`. */
    predicate IsLocked()
      reads this
    {
      locked
    }

    /** `validate_key!`: raises exactly when the node is locked and the
        normalised key is not one of its keys. */
    function ValidateKey(s: string): (r: Outcome)
      reads this
      ensures r.Fail? <==> locked && s !in data
      ensures r.Fail? ==> r.error == ConfigParamNotFound
    {
      if IsLocked() && s !in data then Fail(ConfigParamNotFound) else Pass
    }

    /** `[]=`: a Hash is wrapped in a fresh locked node whose key set is that
        Hash's; any other value is stored verbatim. No other key changes.
        Like the source, it asks nothing of the node: it may be written after
        a nested node below it was written through a reference. */
    method Set(key: Key, value: Shape) returns (r: Outcome)
      modifies this
      ensures old(Valid()) ==> Valid()
      ensures fresh(Repr - old(Repr)) && locked == old(locked)
      ensures r.Fail? <==> old(locked) && ToSym(key) !in old(data)
      ensures r.Fail? ==> r.error == ConfigParamNotFound && unchanged(this)
      ensures r.Pass? ==> ToSym(key) in data && data == old(data)[ToSym(key) := data[ToSym(key)]]
      ensures r.Pass? && value.Scalar? ==> data[ToSym(key)] == Plain(value.x)
      ensures r.Pass? && value.Hash? ==>
        var c := data[ToSym(key)];
        c.Nested? && fresh(c.node) && fresh(c.node.Repr) && c.node.Repr <= Repr &&
        c.node.Valid() && c.node.locked && c.node.Stores(value.entries)
      decreases value, 3
    {
      var s := ToSym(key);
      r := ValidateKey(s);
      if r.Fail? {
        return;
      }
      if value.Hash? {
        var c := new Config(value.entries);
        data := data[s := Nested(c)];
        Repr := Repr + c.Repr;
      } else {
        data := data[s := Plain(value.x)];
      }
    }

    /** `[]`: the stored value of the normalised key; a missing key raises
        once the node is locked. */
    method Get(key: Key) returns (r: Result<Val>)
      ensures r.Raised? <==> locked && ToSym(key) !in data
      ensures r.Raised? ==> r.error == ConfigParamNotFound
      ensures r.Ok? ==> r.value == if ToSym(key) in data then data[ToSym(key)] else Nil
    {
      var s := ToSym(key);
      var v := ValidateKey(s);
      if v.Fail? {
        return Raised(v.error);
      }
      r := Ok(if s in data then data[s] else Nil);
    }

    /** `method_missing`: a setter name writes `arg` to the key it names, any
        other name reads the key of that name. */
    method Call(name: string, arg: Shape) returns (r: Result<Reply>)
      modifies this
      ensures old(Valid()) ==> Valid()
      ensures fresh(Repr - old(Repr)) && locked == old(locked)
      ensures Dispatch(name).Read? ==>
        unchanged(this) &&
        (r.Raised? <==> locked && name !in data) &&
        (r.Raised? ==> r.error == ConfigParamNotFound) &&
        (r.Ok? ==> r.value == Value(if name in data then data[name] else Nil))
      ensures Dispatch(name).Write? ==>
        var k := Dispatch(name).key;
        (r.Raised? <==> old(locked) && k !in old(data)) &&
        (r.Raised? ==> r.error == ConfigParamNotFound && unchanged(this)) &&
        (r.Ok? ==> r.value == Assigned(arg) && k in data && data == old(data)[k := data[k]] &&
                   (arg.Scalar? ==> data[k] == Plain(arg.x)) &&
                   (arg.Hash? ==> data[k].Nested? && fresh(data[k].node) &&
                                  data[k].node.locked && data[k].node.Stores(arg.entries)))
    {
      match Dispatch(name)
      case Write(k) =>
        var w := Set(Str(k), arg);
        r := if w.Fail? then Raised(w.error) else Ok(Assigned(arg));
      case Read(k) =>
        var v := Get(Sym(k));
        r := if v.Raised? then Raised(v.error) else Ok(Value(v.value));
    }
  }
}
