/**
 * `parse`: compiles a decoded pattern file by walking its `"child"` chain, and
 * `PatternDatabase::get`, the name lookup of loaded patterns.
 */
module PatternParse {
  import opened Wrappers
  import opened Geometry
  import opened Json
  import opened PatternOps

  /** Why `parse` panics. */
  datatype PatternError =
    | MalformedJson
    | InvalidType(name: string)
    | NoCount
    | NoAngle
    | BadExpression(key: string)

  /** `parse_expression`: the text of a field, compiled; `None` where fasteval rejects it. */
  type Compiler = Json -> Option<Expr>

  /** The operation one node of the chain compiles to; `None` for a node without a string `"type"`. */
  function CompileNode(node: Json, compile: Compiler): (r: Result<Option<PatternOp>, PatternError>)
    ensures !Index(node, "type").Str? ==> r == Ok(None)
    ensures Index(node, "type").Str? ==> r.Err? || r.value.Some?
    ensures Index(node, "type").Str? && Index(node, "type").s !in {"ring", "arc", "bullet"} ==>
      r == Err(InvalidType(Index(node, "type").s))
    ensures Index(node, "type") == Str("ring") ==>
      && (compile(Index(node, "count")).None? ==> r == Err(BadExpression("count")))
      && (compile(Index(node, "count")).Some? ==>
            && r.Ok? && r.value.Some? && r.value.value.Ring?
            && r.value.value.count == compile(Index(node, "count")).value
            && r.value.value.radius == AsF64(Index(node, "radius")).GetOr(0.0))
    ensures Index(node, "type") == Str("arc") ==>
      && (AsU64(Index(node, "count")).None? ==> r == Err(NoCount))
      && (AsU64(Index(node, "count")).Some? && AsF64(Index(node, "angle")).None? ==> r == Err(NoAngle))
      && (AsU64(Index(node, "count")).Some? && AsF64(Index(node, "angle")).Some? ==>
            r == Ok(Some(Arc(WrapToU32(AsU64(Index(node, "count")).value),
                             ToRadians(AsF64(Index(node, "angle")).value)))))
    ensures Index(node, "type") == Str("bullet") ==>
      && (compile(Index(node, "speed")).None? ==> r == Err(BadExpression("speed")))
      && (compile(Index(node, "speed")).Some? && compile(Index(node, "angular_velocity")).None? ==>
            r == Err(BadExpression("angular_velocity")))
      && (compile(Index(node, "speed")).Some? && compile(Index(node, "angular_velocity")).Some? ==>
            && r.Ok? && r.value.Some? && r.value.value.Bullet?
            && r.value.value.bullet.lifetime == AsF64(Index(node, "lifetime")).GetOr(10.0)
            && r.value.value.bullet.speed == compile(Index(node, "speed")).value
            && r.value.value.bullet.angularVelocity == compile(Index(node, "angular_velocity")).value
            && r.value.value.bullet.position == ZERO2 && r.value.value.bullet.rotation == 0.0)
  {
    match Index(node, "type")
    case Str(name) =>
      if name == "ring" then
        match compile(Index(node, "count"))
        case None => Err(BadExpression("count"))
        case Some(count) => Ok(Some(Ring(count, AsF64(Index(node, "radius")).GetOr(0.0))))
      else if name == "arc" then
        match AsU64(Index(node, "count"))
        case None => Err(NoCount)
        case Some(count) =>
          match AsF64(Index(node, "angle"))
          case None => Err(NoAngle)
          case Some(angle) => Ok(Some(Arc(WrapToU32(count), ToRadians(angle))))
      else if name == "bullet" then
        var lifetime := AsF64(Index(node, "lifetime")).GetOr(10.0);
        match compile(Index(node, "speed"))
        case None => Err(BadExpression("speed"))
        case Some(speed) =>
          match compile(Index(node, "angular_velocity"))
          case None => Err(BadExpression("angular_velocity"))
          case Some(angular) =>
            Ok(Some(Bullet(DefaultContext().(lifetime := lifetime, speed := speed, angularVelocity := angular))))
      else Err(InvalidType(name))
    case _ => Ok(None)
  }

  function OpsOf(op: Option<PatternOp>): seq<PatternOp>
  {
    if op.Some? then [op.value] else []
  }

  /** The operations of the chain that starts at `v`, or the first node's error. */
  function ParseChain(v: Json, compile: Compiler): Result<seq<PatternOp>, PatternError>
    decreases v
  {
    if v.Null? then Ok([])
    else
      match CompileNode(v, compile)
      case Err(e) => Err(e)
      case Ok(op) =>
        var rest := if v.Object? && "child" in v.fields then ParseChain(v.fields["child"], compile) else Ok([]);
        match rest
        case Err(e) => Err(e)
        case Ok(ops) => Ok(OpsOf(op) + ops)
  }

  lemma ParseChainStep(v: Json, compile: Compiler)
    requires !v.Null? && CompileNode(v, compile).Ok?
    ensures ParseChain(v, compile) ==
      match ParseChain(Index(v, "child"), compile)
      case Err(e) => Err(e)
      case Ok(ops) => Ok(OpsOf(CompileNode(v, compile).value) + ops)
  {
  }

  /** The number of nodes with a string `"type"`. */
  function TypedCount(nodes: seq<Json>): nat
    decreases |nodes|
  {
    if nodes == [] then 0 else (if Index(nodes[0], "type").Str? then 1 else 0) + TypedCount(nodes[1..])
  }

  /**
   * `parse` succeeds exactly when every node of the chain compiles, and then
   * yields one operation per node with a string `"type"`.
   */
  lemma {:induction false} ParseChainOk(v: Json, compile: Compiler)
    ensures ParseChain(v, compile).Ok? <==> forall n :: n in Chain(v) ==> CompileNode(n, compile).Ok?
    ensures ParseChain(v, compile).Ok? ==> |ParseChain(v, compile).value| == TypedCount(Chain(v))
    decreases v
  {
    if !v.Null? {
      ChainStep(v);
      var child := Index(v, "child");
      if child != Null {
        ParseChainOk(child, compile);
      }
      if CompileNode(v, compile).Ok? {
        ParseChainStep(v, compile);
      }
      assert Chain(v)[1..] == Chain(child);
    }
  }

  /** Node `k` is the first of `nodes` that fails to compile, and it fails with `e`. */
  ghost predicate FirstFailure(nodes: seq<Json>, compile: Compiler, k: nat, e: PatternError)
  {
    && k < |nodes|
    && CompileNode(nodes[k], compile) == Err(e)
    && forall m :: 0 <= m < k ==> CompileNode(nodes[m], compile).Ok?
  }

  /** A node that compiles, put in front, moves the first failure one place on. */
  lemma FirstFailureCons(n: Json, rest: seq<Json>, compile: Compiler, k: nat, e: PatternError)
    requires CompileNode(n, compile).Ok? && FirstFailure(rest, compile, k, e)
    ensures FirstFailure([n] + rest, compile, k + 1, e)
  {
    forall m | 0 <= m < k + 1
      ensures CompileNode(([n] + rest)[m], compile).Ok?
    {
      if m > 0 { assert ([n] + rest)[m] == rest[m - 1]; }
    }
  }

  /** The error `parse` reports is that of the first node of the chain that fails; every node before it compiles. */
  lemma {:induction false} ParseChainFirstError(v: Json, compile: Compiler)
    requires ParseChain(v, compile).Err?
    ensures exists k: nat :: FirstFailure(Chain(v), compile, k, ParseChain(v, compile).error)
    decreases v
  {
    ChainStep(v);
    var child := Index(v, "child");
    if CompileNode(v, compile).Err? {
      assert FirstFailure(Chain(v), compile, 0, ParseChain(v, compile).error);
    } else {
      ParseChainStep(v, compile);
      assert child != Null;
      ParseChainFirstError(child, compile);
      var e := ParseChain(child, compile).error;
      var k: nat :| FirstFailure(Chain(child), compile, k, e);
      FirstFailureCons(v, Chain(child), compile, k, e);
    }
  }

  lemma TypedCountCons(n: Json, rest: seq<Json>)
    ensures TypedCount([n] + rest) == (if Index(n, "type").Str? then 1 else 0) + TypedCount(rest)
  {
    assert ([n] + rest)[1..] == rest;
  }

  /** The typed nodes' operations appear in chain order: the `k`-th node's operation follows those of the typed nodes before it. */
  lemma {:induction false} ParseChainOrder(v: Json, compile: Compiler, k: nat)
    requires ParseChain(v, compile).Ok?
    requires k < |Chain(v)| && Index(Chain(v)[k], "type").Str?
    ensures CompileNode(Chain(v)[k], compile).Ok? && CompileNode(Chain(v)[k], compile).value.Some?
    ensures TypedCount(Chain(v)[..k]) < |ParseChain(v, compile).value|
    ensures ParseChain(v, compile).value[TypedCount(Chain(v)[..k])] == CompileNode(Chain(v)[k], compile).value.value
    decreases v
  {
    ParseChainOk(v, compile);
    ChainStep(v);
    assert Chain(v)[0] == v;
    var child := Index(v, "child");
    ParseChainStep(v, compile);
    if k == 0 {
      assert Chain(v)[..k] == [];
    } else {
      assert Chain(v)[k] == Chain(child)[k - 1];
      assert child != Null;
      ParseChainOrder(child, compile, k - 1);
      assert Chain(v)[..k] == [v] + Chain(child)[..k - 1];
      TypedCountCons(v, Chain(child)[..k - 1]);
    }
  }

  function Prefixed(done: seq<PatternOp>, rest: Result<seq<PatternOp>, PatternError>): Result<seq<PatternOp>, PatternError>
  {
    match rest
    case Err(e) => Err(e)
    case Ok(ops) => Ok(done + ops)
  }

  /** One turn of the walk: a compiling node's operations move from the rest of the chain to the part already done. */
  lemma PrefixedStep(done: seq<PatternOp>, v: Json, compile: Compiler)
    requires !v.Null? && CompileNode(v, compile).Ok?
    ensures Prefixed(done + OpsOf(CompileNode(v, compile).value), ParseChain(Index(v, "child"), compile))
         == Prefixed(done, ParseChain(v, compile))
  {
    var head := OpsOf(CompileNode(v, compile).value);
    ParseChainStep(v, compile);
    match ParseChain(Index(v, "child"), compile) {
      case Err(e) =>
      case Ok(ops) => assert done + head + ops == done + (head + ops);
    }
  }

  /**
   * `parse`: walks the `"child"` chain of the decoded file, pushing one operation
   * per typed node; a decoding failure or a failing node ends in the error `parse`
   * panics with.
   */
  method Parse(decoded: Option<Json>, compile: Compiler) returns (r: Result<Pattern, PatternError>)
    ensures decoded.None? ==> r == Err(MalformedJson)
    ensures decoded.Some? ==>
      r == match ParseChain(decoded.value, compile)
           case Err(e) => Err(e)
           case Ok(ops) => Ok(Pattern(ops))
  {
    if decoded.None? {
      return Err(MalformedJson);
    }
    var value := decoded.value;
    var operations: seq<PatternOp> := [];
    match ParseChain(value, compile) {
      case Err(e) =>
      case Ok(ops) => assert operations + ops == ops;
    }
    while !value.Null?
      invariant Prefixed(operations, ParseChain(value, compile)) == ParseChain(decoded.value, compile)
      decreases |Chain(value)|
    {
      ChainStep(value);
      match CompileNode(value, compile)
      case Err(e) =>
        return Err(e);
      case Ok(op) =>
        PrefixedStep(operations, value, compile);
        operations := operations + OpsOf(op);
      value := Index(value, "child");
    }
    assert operations + [] == operations;
    return Ok(Pattern(operations));
  }

  /** A `Handle<Pattern>`: the id of a loaded pattern asset, distinct from a texture handle. */
  type PatternHandle = nat

  /** `PatternDatabase::get`: the pattern registered under a name, if any. */
  function Get(database: map<string, PatternHandle>, key: string): (r: Option<PatternHandle>)
    ensures r.Some? <==> key in database
    ensures r.Some? ==> r.value == database[key]
  {
    if key in database then Some(database[key]) else None
  }
}
