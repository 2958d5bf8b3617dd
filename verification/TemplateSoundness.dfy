/** The analysis is sound: two callers that agree on the reported keys get the same
    text, or the same failure. */
module TemplateSoundness {
  import opened Templates
  import opened TemplateAnalysis
  import opened Wrappers

  // ----- templates without chains -----

  predicate ArgPlain(a: Arg)
    decreases a, 0
  {
    !a.Chain? && (a.Nested? ==> PipePlain(a.pipe))
  }

  predicate ArgsPlain(args: seq<Arg>)
    decreases args, 1
  {
    args == [] || (ArgPlain(args[0]) && ArgsPlain(args[1..]))
  }

  predicate CommandsPlain(cmds: seq<Command>)
    decreases cmds, 0
  {
    cmds == [] || (CommandPlain(cmds[0]) && CommandsPlain(cmds[1..]))
  }

  predicate CommandPlain(c: Command)
    decreases c, 0
  {
    ArgsPlain(c.args)
  }

  predicate PipePlain(p: Pipe)
    decreases p, 0
  {
    CommandsPlain(p.cmds)
  }

  predicate NodePlain(node: Node)
    decreases node, 0
  {
    match node
    case TextNode(_) => true
    case Action(pipe) => PipePlain(pipe)
    case If(pipe, list, els) => PipePlain(pipe) && ListPlain(list) && ListPlain(els)
    case Range(pipe, list, els) => PipePlain(pipe) && ListPlain(list) && ListPlain(els)
    case With(pipe, list, els) => PipePlain(pipe) && ListPlain(list) && ListPlain(els)
    case Template(_, argument) => argument.Some? ==> PipePlain(argument.value)
  }

  predicate ListPlain(nodes: seq<Node>)
    decreases nodes, 0
  {
    nodes == [] || (NodePlain(nodes[0]) && ListPlain(nodes[1..]))
  }

  // ----- two callers -----

  ghost predicate Agree(a: Params, b: Params, keys: set<string>) {
    forall k :: k in keys ==> (k in a <==> k in b) && (k in a ==> a[k] == b[k])
  }

  /** The two values of the dot: the same, or each caller's own map. */
  ghost predicate Linked(x: Value, y: Value, a: Params, b: Params) {
    x == y || (x == Caller(a) && y == Caller(b))
  }

  /** Nothing unattributed is read, and the callers agree on what is read by name. */
  ghost predicate Covered(access: Access, a: Params, b: Params) {
    !access.unattributed && Agree(a, b, access.keys)
  }

  lemma CoveredParts(x: Access, y: Access, a: Params, b: Params)
    requires Covered(Join(x, y), a, b)
    ensures Covered(x, a, b) && Covered(y, a, b)
  {
  }

  // ----- pipes -----

  lemma FieldSame(w: World, path: seq<string>, x: Value, y: Value, a: Params, b: Params)
    requires |path| == 1 && Agree(a, b, {path[0]}) && Linked(x, y, a, b)
    ensures GetFields(w, x, path) == GetFields(w, y, path)
  {
    assert path[1..] == [];
    if x != y {
      assert path[0] in {path[0]};
    }
  }

  lemma {:induction false} ArgSame(w: World, arg: Arg, e: Env, f: Env, a: Params, b: Params)
    requires ArgPlain(arg) && Covered(ArgAccess(arg), a, b) && Linked(e.dot, f.dot, a, b)
    ensures EvalArg(w, arg, e) == EvalArg(w, arg, f)
    decreases arg, 0
  {
    match arg
    case Field(path) => FieldSame(w, path, e.dot, f.dot, a, b);
    case Nested(pipe) => PipeSame(w, pipe, e, f, a, b);
    case _ =>
  }

  lemma {:induction false} ArgsSame(w: World, args: seq<Arg>, e: Env, f: Env, a: Params, b: Params)
    requires ArgsPlain(args) && Covered(ArgsAccess(args), a, b) && Linked(e.dot, f.dot, a, b)
    ensures EvalArgs(w, args, e) == EvalArgs(w, args, f)
    decreases args, 1
  {
    if args != [] {
      ArgSame(w, args[0], e, f, a, b);
      ArgsSame(w, args[1..], e, f, a, b);
    }
  }

  lemma {:induction false} ShortCircuitSame(w: World, stop: bool, args: seq<Arg>, e: Env, f: Env,
                                            piped: Option<Value>, last: Option<Value>, a: Params, b: Params)
    requires ArgsPlain(args) && Covered(ArgsAccess(args), a, b) && Linked(e.dot, f.dot, a, b)
    ensures ShortCircuit(w, stop, args, e, piped, last) == ShortCircuit(w, stop, args, f, piped, last)
    decreases args, 1
  {
    if args != [] {
      ArgSame(w, args[0], e, f, a, b);
      var v := EvalArg(w, args[0], e);
      if v.Ok? {
        ShortCircuitSame(w, stop, args[1..], e, f, piped, Some(v.value), a, b);
      }
    }
  }

  /** index . "name" reads that one key, whatever it is piped. */
  lemma IndexSame(w: World, key: string, e: Env, f: Env, piped: Option<Value>, a: Params, b: Params)
    requires Agree(a, b, {key}) && Linked(e.dot, f.dot, a, b)
    ensures EvalCall(w, "index", [Dot, Str(key)], e, piped) == EvalCall(w, "index", [Dot, Str(key)], f, piped)
  {
    var args := [Dot, Str(key)];
    IndexArgs(w, key, e);
    IndexArgs(w, key, f);
    var more := if piped.Some? then [piped.value] else [];
    var x, y := [e.dot, Text(key)] + more, [f.dot, Text(key)] + more;
    assert key in {key};
    assert x[2..] == more && y[2..] == more;
    assert CallFunction(w, "index", x) == CallFunction(w, "index", y);
  }

  lemma IndexArgs(w: World, key: string, e: Env)
    ensures EvalArgs(w, [Dot, Str(key)], e) == Ok([e.dot, Text(key)])
  {
    var args := [Dot, Str(key)];
    assert args[1..] == [Str(key)] && [Str(key)][1..] == [];
    assert EvalArgs(w, [], e) == Ok([]);
    assert EvalArgs(w, [Str(key)], e) == Ok([Text(key)] + []);
    assert EvalArg(w, Dot, e) == Ok(e.dot);
    assert [e.dot] + ([Text(key)] + []) == [e.dot, Text(key)];
  }

  lemma {:induction false} CommandSame(w: World, c: Command, e: Env, f: Env, piped: Option<Value>, a: Params, b: Params)
    requires CommandPlain(c) && Covered(CommandAccess(c), a, b) && Linked(e.dot, f.dot, a, b)
    ensures EvalCommand(w, c, e, piped) == EvalCommand(w, c, f, piped)
    decreases c, 0
  {
    if c.args == [] {
    } else if IsIndexOfDot(c) {
      assert c.args[1..] == [Dot, Str(c.args[2].text)];
      IndexSame(w, c.args[2].text, e, f, piped, a, b);
    } else {
      CoveredParts(ArgsAccess(c.args), Access({}, false, c.args[0].Ident? && ArgsRead(c.args), false), a, b);
      CoveredParts(ArgAccess(c.args[0]), ArgsAccess(c.args[1..]), a, b);
      CallSame(w, c, e, f, piped, a, b);
    }
  }

  lemma {:induction false} CallSame(w: World, c: Command, e: Env, f: Env, piped: Option<Value>, a: Params, b: Params)
    requires c.args != [] && CommandPlain(c) && Linked(e.dot, f.dot, a, b)
    requires Covered(ArgAccess(c.args[0]), a, b) && Covered(ArgsAccess(c.args[1..]), a, b)
    ensures EvalCommand(w, c, e, piped) == EvalCommand(w, c, f, piped)
    decreases c.args, 3
  {
    if c.args[0].Ident? {
      ArgsSame(w, c.args[1..], e, f, a, b);
      ShortCircuitSame(w, c.args[0].name == "or", c.args[1..], e, f, piped, None, a, b);
    } else {
      ArgSame(w, c.args[0], e, f, a, b);
    }
  }

  lemma {:induction false} CommandsSame(w: World, cmds: seq<Command>, e: Env, f: Env, piped: Option<Value>,
                                        a: Params, b: Params)
    requires CommandsPlain(cmds) && Covered(CommandsAccess(cmds), a, b) && Linked(e.dot, f.dot, a, b)
    ensures EvalCommands(w, cmds, e, piped) == EvalCommands(w, cmds, f, piped)
    decreases cmds, 0
  {
    if cmds != [] {
      CommandSame(w, cmds[0], e, f, piped, a, b);
      var v := EvalCommand(w, cmds[0], e, piped);
      if v.Ok? {
        CommandsSame(w, cmds[1..], e, f, Some(v.value), a, b);
      }
    }
  }

  lemma {:induction false} PipeSame(w: World, p: Pipe, e: Env, f: Env, a: Params, b: Params)
    requires PipePlain(p) && Covered(PipeAccess(p), a, b) && Linked(e.dot, f.dot, a, b)
    ensures EvalPipe(w, p, e) == EvalPipe(w, p, f)
    decreases p, 0
  {
    CommandsSame(w, p.cmds, e, f, None, a, b);
  }

  // ----- nodes -----

  ghost predicate SameText(r: Result<Output>, s: Result<Output>) {
    r.Ok? == s.Ok? && (r.Ok? ==> r.value.text == s.value.text)
  }

  lemma {:induction false} ListSame(w: World, nodes: seq<Node>, e: Env, f: Env, a: Params, b: Params)
    requires ListPlain(nodes) && Covered(ListAccess(nodes), a, b) && Linked(e.dot, f.dot, a, b)
    ensures SameText(ExecList(w, nodes, e), ExecList(w, nodes, f))
    decreases nodes, 1
  {
    if nodes != [] {
      NodeSame(w, nodes[0], e, f, a, b);
      var r, s := ExecNode(w, nodes[0], e), ExecNode(w, nodes[0], f);
      if r.Ok? {
        ListSame(w, nodes[1..], Env(e.dot, r.value.vars), Env(f.dot, s.value.vars), a, b);
      }
    }
  }

  lemma {:induction false} NodeSame(w: World, node: Node, e: Env, f: Env, a: Params, b: Params)
    requires NodePlain(node) && Covered(NodeAccess(node), a, b) && Linked(e.dot, f.dot, a, b)
    ensures SameText(ExecNode(w, node, e), ExecNode(w, node, f))
    decreases node, 1
  {
    match node
    case TextNode(_) =>
    case Action(pipe) => PipeSame(w, pipe, e, f, a, b);
    case If(_, _, _) => IfSame(w, node, e, f, a, b);
    case With(_, _, _) => WithSame(w, node, e, f, a, b);
    case Range(_, _, _) => RangeSame(w, node, e, f, a, b);
  }

  /** The condition and both branches of a branching node are covered. */
  lemma BranchCovered(pipe: Pipe, list: seq<Node>, els: seq<Node>, a: Params, b: Params)
    requires Covered(Join(Join(ConditionAccess(pipe), ListAccess(list)), ListAccess(els)), a, b)
    ensures Covered(PipeAccess(pipe), a, b) && Covered(ListAccess(list), a, b) && Covered(ListAccess(els), a, b)
  {
    CoveredParts(Join(ConditionAccess(pipe), ListAccess(list)), ListAccess(els), a, b);
    CoveredParts(ConditionAccess(pipe), ListAccess(list), a, b);
  }

  lemma {:induction false} IfSame(w: World, node: Node, e: Env, f: Env, a: Params, b: Params)
    requires node.If? && NodePlain(node) && Covered(NodeAccess(node), a, b) && Linked(e.dot, f.dot, a, b)
    ensures SameText(ExecNode(w, node, e), ExecNode(w, node, f))
    decreases node, 0
  {
    BranchCovered(node.pipe, node.list, node.els, a, b);
    PipeSame(w, node.pipe, e, f, a, b);
    var v := EvalPipe(w, node.pipe, e);
    if v.Ok? {
      var x, y := Declare(e.vars, node.pipe.decl, v.value), Declare(f.vars, node.pipe.decl, v.value);
      ListSame(w, node.list, Env(e.dot, x), Env(f.dot, y), a, b);
      ListSame(w, node.els, Env(e.dot, x), Env(f.dot, y), a, b);
    }
  }

  lemma {:induction false} WithSame(w: World, node: Node, e: Env, f: Env, a: Params, b: Params)
    requires node.With? && NodePlain(node) && Covered(NodeAccess(node), a, b) && Linked(e.dot, f.dot, a, b)
    ensures SameText(ExecNode(w, node, e), ExecNode(w, node, f))
    decreases node, 0
  {
    BranchCovered(node.pipe, node.list, node.els, a, b);
    PipeSame(w, node.pipe, e, f, a, b);
    var v := EvalPipe(w, node.pipe, e);
    if v.Ok? {
      var x, y := Declare(e.vars, node.pipe.decl, v.value), Declare(f.vars, node.pipe.decl, v.value);
      ListSame(w, node.list, Env(v.value, x), Env(v.value, y), a, b);
      ListSame(w, node.els, Env(e.dot, x), Env(f.dot, y), a, b);
    }
  }

  lemma {:induction false} RangeSame(w: World, node: Node, e: Env, f: Env, a: Params, b: Params)
    requires node.Range? && NodePlain(node) && Covered(NodeAccess(node), a, b) && Linked(e.dot, f.dot, a, b)
    ensures SameText(ExecNode(w, node, e), ExecNode(w, node, f))
    decreases node, 0
  {
    BranchCovered(node.pipe, node.list, node.els, a, b);
    PipeSame(w, node.pipe, e, f, a, b);
    var v := EvalPipe(w, node.pipe, e);
    if v.Ok? && w.elements(v.value).Ok? {
      var x, y := Declare(e.vars, node.pipe.decl, v.value), Declare(f.vars, node.pipe.decl, v.value);
      ListSame(w, node.els, Env(e.dot, x), Env(f.dot, y), a, b);
      ItemsSame(w, node.list, w.elements(v.value).value, node.pipe.decl, x, y, a, b);
    }
  }

  lemma {:induction false} ItemsSame(w: World, list: seq<Node>, items: seq<Value>, decl: seq<string>,
                                     x: map<string, Value>, y: map<string, Value>, a: Params, b: Params)
    requires ListPlain(list) && Covered(ListAccess(list), a, b)
    ensures SameText(ExecItems(w, list, items, decl, x), ExecItems(w, list, items, decl, y))
    decreases list, 2, |items|
  {
    if items != [] {
      ListSame(w, list, Env(items[0], Declare(x, decl, items[0])), Env(items[0], Declare(y, decl, items[0])), a, b);
      ItemsSame(w, list, items[1..], decl, x, y, a, b);
    }
  }

  /** A template that is not opaque to the analysis renders alike for all callers
      that agree on the reported keys. */
  lemma AnalysisIsSound(w: World, nodes: seq<Node>, a: Params, b: Params)
    requires ListPlain(nodes) && Covered(ListAccess(nodes), a, b)
    ensures Render(w, nodes, a) == Render(w, nodes, b)
  {
    ListSame(w, nodes, Env(Caller(a), map["$" := Caller(a)]), Env(Caller(b), map["$" := Caller(b)]), a, b);
  }

  // ----- chains -----

  /** The template {{(.).key}}. */
  function ChainOn(key: string): seq<Node> {
    [Action(Pipe([], [Command([Chain(Pipe([], [Command([Dot])]), [key])])]))]
  }

  lemma OneCommand(w: World, c: Command, env: Env)
    ensures EvalPipe(w, Pipe([], [c]), env) == EvalCommand(w, c, env, None)
  {
    var v := EvalCommand(w, c, env, None);
    assert [c][1..] == [];
    if v.Ok? {
      assert EvalCommands(w, [], env, Some(v.value)) == v;
    }
  }

  lemma OneField(w: World, v: Value, key: string)
    ensures GetFields(w, v, [key]) == GetField(w, v, key)
  {
    var next := GetField(w, v, key);
    assert [key][1..] == [];
    if next.Ok? {
      assert GetFields(w, next.value, []) == next;
    }
  }

  lemma ChainValue(w: World, key: string, env: Env)
    ensures EvalPipe(w, Pipe([], [Command([Chain(Pipe([], [Command([Dot])]), [key])])]), env) == GetField(w, env.dot, key)
  {
    var dot := Pipe([], [Command([Dot])]);
    OneCommand(w, Command([Dot]), env);
    assert EvalPipe(w, dot, env) == Ok(env.dot);
    OneField(w, env.dot, key);
    OneCommand(w, Command([Chain(dot, [key])]), env);
  }

  /** Chains must be excluded: the analysis does not see that (.).key reads a
      parameter, and the rendering is that parameter. */
  lemma ChainsEscapeTheAnalysis(w: World, key: string, a: Params)
    requires key in a && (forall s :: w.show(Text(s)) == s)
    ensures ListAccess(ChainOn(key)) == NOTHING
    ensures Render(w, ChainOn(key), a) == Ok(a[key])
  {
    var p := Pipe([], [Command([Chain(Pipe([], [Command([Dot])]), [key])])]);
    var env := Env(Caller(a), map["$" := Caller(a)]);
    ChainValue(w, key, env);
    ChainUnseen(key);
    assert ChainOn(key) == [Action(p)] && ChainOn(key)[1..] == [];
    assert Declare(env.vars, [], Text(a[key])) == env.vars;
    assert ExecNode(w, Action(p), env) == Ok(Output(a[key], env.vars));
    assert ExecList(w, [], env) == Ok(Output("", env.vars));
    assert ExecList(w, ChainOn(key), env) == Ok(Output(a[key] + "", env.vars));
    assert a[key] + "" == a[key];
  }

  lemma ChainUnseen(key: string)
    ensures ListAccess(ChainOn(key)) == NOTHING
  {
    var chain := Chain(Pipe([], [Command([Dot])]), [key]);
    assert [chain][1..] == [];
    assert ArgsAccess([]) == NOTHING && ArgsAccess([chain]) == Join(NOTHING, NOTHING);
    assert !ArgsRead([]) && !ArgsRead([chain]);
    var c := Command([chain]);
    assert CommandAccess(c) == NOTHING && !CommandReads(c);
    assert [c][1..] == [];
    assert CommandsAccess([]) == NOTHING && CommandsAccess([c]) == Join(NOTHING, NOTHING);
    assert !CommandsRead([]) && !CommandsRead([c]);
    assert PipeAccess(Pipe([], [c])) == NOTHING;
    assert NodeAccess(Action(Pipe([], [c]))) == NOTHING;
    assert ChainOn(key) == [Action(Pipe([], [c]))] && ChainOn(key)[1..] == [];
    assert ListAccess([]) == NOTHING;
    assert ListAccess(ChainOn(key)) == Join(NOTHING, NOTHING);
  }
}
