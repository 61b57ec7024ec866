/** Call sequences on the two stores, proved from the methods' contracts
    alone: the cases the project's own tests exercise, and the properties
    that only show over several calls. */
module Scenarios {
  import opened Errors
  import opened Values
  import opened Configurable
  import opened ConfigStore

  // ---------------------------------------------------------------------
  // The owner registry

  /** Right after `default_configuration(h)`, `config` returns exactly `h`. */
  method DeclaredThenRead(h: Table) returns (r: Result<Table>)
    ensures r == Ok(h)
  {
    var owner := new Owner();
    owner.DefaultConfiguration(h);
    r := owner.Config();
  }

  /** A class that never declared a default: `configure({})` raises
      `DefaultConfigNotExists` and `config` raises `NotConfigured`. */
  method NeverDeclared() returns (configured: Result<Table>, read: Result<Table>)
    ensures configured == Raised(DefaultConfigNotExists)
    ensures read == Raised(NotConfigured)
  {
    var owner := new Owner();
    configured := owner.Configure(map[]);
    read := owner.Config();
  }

  /** Declaring a default again discards every earlier override. */
  method RedeclareDiscardsOverrides(h: Table, o: Table, h2: Table) returns (r: Result<Table>)
    ensures r == Ok(h2)
  {
    var owner := new Owner();
    owner.DefaultConfiguration(h);
    var _ := owner.Configure(o);
    owner.DefaultConfiguration(h2);
    r := owner.Config();
  }

  /** An override naming an undeclared key raises `ConfigParamNotFound` and
      changes nothing, not even the values of its declared keys. */
  method RejectedOverrideIsAtomic(h: Table, o: Table) returns (configured: Result<Table>, read: Result<Table>)
    requires !(o.Keys <= h.Keys)
    ensures configured == Raised(ConfigParamNotFound)
    ensures read == Ok(h)
  {
    var owner := new Owner();
    owner.DefaultConfiguration(h);
    configured := owner.Configure(o);
    read := owner.Config();
  }

  /** No sequence of overrides, accepted or rejected, changes the declared
      key set. */
  method OverridesKeepKeySet(h: Table, overrides: seq<Table>) returns (keys: set<Key>)
    ensures keys == h.Keys
  {
    var owner := new Owner();
    owner.DefaultConfiguration(h);
    var i := 0;
    while i < |overrides|
      invariant 0 <= i <= |overrides|
      invariant owner.config.Some? && owner.config.value.Keys == h.Keys
    {
      var _ := owner.Configure(overrides[i]);
      i := i + 1;
    }
    var current := owner.Config();
    keys := current.value.Keys;
  }

  /** The test suite's `MyClass`: declared `{param_one: 1, param_two: 2}`,
      overridden with `{param_one: 3, param_two: 4}`, then given the
      undeclared `params_four`. */
  method MyClassSuite() returns (declared: Result<Table>, overridden: Result<Table>, rejected: Result<Table>)
    ensures declared == Ok(map[Sym("param_one") := Scalar(1), Sym("param_two") := Scalar(2)])
    ensures overridden == Ok(map[Sym("param_one") := Scalar(3), Sym("param_two") := Scalar(4)])
    ensures rejected == Raised(ConfigParamNotFound)
  {
    var one, two := Sym("param_one"), Sym("param_two");
    var defaults := map[one := Scalar(1), two := Scalar(2)];
    var override := map[one := Scalar(3), two := Scalar(4)];
    var unknown := map[Sym("params_four") := Scalar(10)];
    var owner := new Owner();
    owner.DefaultConfiguration(defaults);
    declared := owner.Config();
    assert defaults + override == override;
    var _ := owner.Configure(override);
    overridden := owner.Config();
    assert Sym("params_four") !in override;
    rejected := owner.Configure(unknown);
  }

  // ---------------------------------------------------------------------
  // The nested store

  /** Right after construction every key of the input reads back: a scalar
      as itself, a Hash as a locked nested node with that Hash's keys; any
      other key raises `ConfigParamNotFound`. */
  method ReadAfterConstruction(input: seq<(Key, Shape)>, key: Key) returns (r: Result<Val>)
    ensures r.Raised? <==> ToSym(key) !in KeysOf(input)
    ensures r.Raised? ==> r.error == ConfigParamNotFound
    ensures r.Ok? ==>
      match Lookup(input, ToSym(key))
      case None => false
      case Some(Scalar(x)) => r.value == Plain(x)
      case Some(Hash(h)) => r.value.Nested? && r.value.node.locked && r.value.node.data.Keys == KeysOf(h)
  {
    var c := new Config(input);
    r := c.Get(key);
  }

  /** `:name` and `"name"` address the same entry. */
  method SpellingsAgree(input: seq<(Key, Shape)>, name: string) returns (bySymbol: Result<Val>, byString: Result<Val>)
    ensures bySymbol == byString
  {
    var c := new Config(input);
    bySymbol := c.Get(Sym(name));
    byString := c.Get(Str(name));
  }

  /** No sequence of writes, accepted or rejected, changes a locked node's
      key set: a key that was absent stays unreadable. */
  method WritesKeepKeySet(input: seq<(Key, Shape)>, writes: seq<(Key, Shape)>, probe: Key)
    returns (keys: set<string>, read: Result<Val>)
    ensures keys == KeysOf(input)
    ensures ToSym(probe) !in KeysOf(input) ==> read == Raised(ConfigParamNotFound)
  {
    var c := new Config(input);
    var i := 0;
    while i < |writes|
      invariant 0 <= i <= |writes|
      invariant fresh(c.Repr) && c.Valid() && c.locked && c.data.Keys == KeysOf(input)
    {
      var _ := c.Set(writes[i].0, writes[i].1);
      i := i + 1;
    }
    keys := c.data.Keys;
    read := c.Get(probe);
  }

  /** Writing a Hash to a declared key of any node installs a new node whose
      key set is exactly that Hash's, whatever the old value was; the other
      keys keep their values. */
  method ReplaceNested(c: Config, key: Key, inner: seq<(Key, Shape)>) returns (written: Outcome)
    requires ToSym(key) in c.data
    modifies c
    ensures written == Pass
    ensures c.data.Keys == old(c.data.Keys)
    ensures c.data[ToSym(key)].Nested? && c.data[ToSym(key)].node.data.Keys == KeysOf(inner)
    ensures forall s :: s in old(c.data) && s != ToSym(key) ==> c.data[s] == old(c.data[s])
  {
    written := c.Set(key, Hash(inner));
  }

  /** `cfg.a.b = 1` followed by `cfg.a = 2`: a write through a nested node
      does not keep its parent from being written afterwards. */
  method NestedThenParentWrite() returns (inner: Outcome, outer: Outcome, read: Result<Val>)
    ensures inner == Pass && outer == Pass
    ensures read == Ok(Plain(2))
  {
    var shape := [(Sym("a"), Hash([(Sym("b"), Scalar(0))]))];
    var c := new Config(shape);
    assert Lookup(shape, "a") == Some(Hash([(Sym("b"), Scalar(0))]));
    var a := c.Get(Sym("a"));
    var node := a.value.node;
    assert Lookup([(Sym("b"), Scalar(0))], "b") == Some(Scalar(0));
    inner := node.Set(Sym("b"), Scalar(1));
    outer := c.Set(Sym("a"), Scalar(2));
    read := c.Get(Sym("a"));
  }

  /** Every Hash entry gets a node of its own: `cfg.a.x = 2` leaves
      `cfg.b.x` as it was, even when `a` and `b` were built from equal
      Hashes. */
  method SiblingsIndependent() returns (written: Outcome, sibling: Result<Val>)
    ensures written == Pass
    ensures sibling == Ok(Plain(1))
  {
    var inner := [(Sym("x"), Scalar(1))];
    var shape := [(Sym("a"), Hash(inner)), (Sym("b"), Hash(inner))];
    var c := new Config(shape);
    assert Lookup(shape, "a") == Some(Hash(inner)) && Lookup(shape, "b") == Some(Hash(inner));
    assert Lookup(inner, "x") == Some(Scalar(1));
    var a := c.Get(Sym("a"));
    var b := c.Get(Sym("b"));
    var na, nb := a.value.node, b.value.node;
    assert na == c.data["a"].node && nb == c.data["b"].node;
    assert na in na.Repr && nb in nb.Repr;
    assert na != nb && na !in nb.Repr;
    assert nb.data["x"] == Plain(1);
    written := na.Set(Sym("x"), Scalar(2));
    sibling := nb.Get(Sym("x"));
  }

  /** A nested Hash is reached by chaining reads: `param_three.nested`. */
  method NestedChain() returns (r: Result<Val>)
    ensures r == Ok(Plain(3))
  {
    var c := new Config([(Sym("param_three"), Hash([(Sym("nested"), Scalar(3))]))]);
    assert Lookup([(Sym("param_three"), Hash([(Sym("nested"), Scalar(3))]))], "param_three")
      == Some(Hash([(Sym("nested"), Scalar(3))]));
    var outer := c.Get(Sym("param_three"));
    var node := outer.value.node;
    assert Lookup([(Sym("nested"), Scalar(3))], "nested") == Some(Scalar(3));
    r := node.Get(Sym("nested"));
  }

  /** Attribute-style access: `name = x` followed by `name` reads `x` back. */
  method SetterThenGetter(input: seq<(Key, Shape)>, name: string, x: int) returns (r: Result<Reply>)
    requires name in KeysOf(input) && name != [] && name[|name| - 1] != '='
    ensures r == Ok(Value(Plain(x)))
  {
    var c := new Config(input);
    SetterDispatch(name);
    var _ := c.Call(name + "=", Scalar(x));
    r := c.Call(name, Scalar(0));
  }
}
