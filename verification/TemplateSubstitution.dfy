/** A template that the analysis accepts is a substitution: fixed text with holes,
    each filled verbatim by one of the caller's parameters. */
module TemplateSubstitution {
  import opened Templates
  import opened TemplateAnalysis
  import opened TemplateSoundness
  import opened Wrappers

  /** Text prints as itself. */
  ghost predicate Verbatim(w: World) {
    forall s :: w.show(Text(s)) == s
  }

  /** Read by name only, never transformed, and no branch depends on the caller. */
  predicate Accepted(a: Access) {
    !a.unattributed && !a.transform && !a.controlFlow
  }

  // ----- skeletons -----

  /** A hole takes one parameter. A strict hole fails when the caller did not give
      it, and a hidden one prints nothing. */
  datatype Piece = Fixed(text: string) | Hole(key: string, strict: bool, shown: bool)

  /** `Broken` fails for every caller. */
  datatype Skeleton = Broken | Pieces(pieces: seq<Piece>)

  function FillPiece(p: Piece, params: Params): Result<string> {
    match p
    case Fixed(text) => Ok(text)
    case Hole(key, strict, shown) =>
      if key !in params then (if strict then Err else Ok(""))
      else Ok(if shown then params[key] else "")
  }

  function FillPieces(pieces: seq<Piece>, params: Params): Result<string> {
    if pieces == [] then Ok("")
    else
      var first, rest := FillPiece(pieces[0], params), FillPieces(pieces[1..], params);
      if first.Err? || rest.Err? then Err else Ok(first.value + rest.value)
  }

  function Fill(s: Skeleton, params: Params): Result<string> {
    if s.Broken? then Err else FillPieces(s.pieces, params)
  }

  function Append(s: Skeleton, t: Skeleton): Skeleton {
    if s.Broken? || t.Broken? then Broken else Pieces(s.pieces + t.pieces)
  }

  lemma Regroup(a: string, b: string, c: string)
    ensures a + (b + c) == (a + b) + c
  {
  }

  lemma {:induction false} FillConcat(a: seq<Piece>, b: seq<Piece>, params: Params)
    ensures FillPieces(a + b, params) ==
            var x, y := FillPieces(a, params), FillPieces(b, params);
            if x.Err? || y.Err? then Err else Ok(x.value + y.value)
  {
    if a == [] {
      assert a + b == b;
      if FillPieces(b, params).Ok? {
        assert "" + FillPieces(b, params).value == FillPieces(b, params).value;
      }
    } else {
      FillConcat(a[1..], b, params);
      assert (a + b)[0] == a[0] && (a + b)[1..] == a[1..] + b;
      var first, x, y := FillPiece(a[0], params), FillPieces(a[1..], params), FillPieces(b, params);
      if first.Ok? && x.Ok? && y.Ok? {
        Regroup(first.value, x.value, y.value);
      }
    }
  }

  lemma FillAppend(s: Skeleton, t: Skeleton, params: Params)
    ensures Fill(Append(s, t), params) ==
            var x, y := Fill(s, params), Fill(t, params);
            if x.Err? || y.Err? then Err else Ok(x.value + y.value)
  {
    if s.Pieces? && t.Pieces? {
      FillConcat(s.pieces, t.pieces, params);
    }
  }

  // ----- pipes, for all callers at once -----

  /** The dot: the caller's map, or a value that is the same for every caller. */
  datatype SymDot = Root | Bound(v: Value)

  function DotFor(dot: SymDot, params: Params): Value {
    if dot.Root? then Caller(params) else dot.v
  }

  /** A pipe's value: the same for every caller, or one parameter. */
  datatype SymValue = Same(r: Result<Value>) | Key(name: string, strict: bool)

  function ValueFor(v: SymValue, params: Params): Result<Value> {
    match v
    case Same(r) => r
    case Key(name, strict) =>
      if name in params then Ok(Text(params[name])) else if strict then Err else Ok(Text(""))
  }

  const NOWHERE := Env(Thing(0), map[])

  function SymArg(w: World, a: Arg, dot: SymDot): SymValue
    decreases a, 0
  {
    match a
    case Field(path) =>
      if |path| == 1 && dot.Root? then Key(path[0], true)
      else if dot.Root? then Same(Err) else Same(GetFields(w, dot.v, path))
    case Nested(pipe) => SymPipe(w, pipe, dot)
    case _ => Same(EvalArg(w, a, NOWHERE))
  }

  function SymCommand(w: World, c: Command, dot: SymDot): SymValue
    decreases c, 0
  {
    if IsIndexOfDot(c) then
      if dot.Root? then Key(c.args[2].text, false)
      else Same(CallFunction(w, "index", [dot.v, Text(c.args[2].text)]))
    else if |c.args| == 1 && !c.args[0].Ident? then SymArg(w, c.args[0], dot)
    else Same(Err)
  }

  function SymPipe(w: World, p: Pipe, dot: SymDot): SymValue
    decreases p, 0
  {
    if PipeReads(p) && |p.cmds| == 1 then SymCommand(w, p.cmds[0], dot)
    else Same(EvalPipe(w, p, NOWHERE))
  }

  // ----- what reads nothing is the same for everyone -----

  lemma {:induction false} ArgConst(w: World, a: Arg, e: Env, f: Env)
    requires ArgPlain(a) && !ArgReads(a)
    ensures EvalArg(w, a, e) == EvalArg(w, a, f)
    decreases a, 0
  {
    match a
    case Nested(pipe) => PipeConst(w, pipe, e, f);
    case _ =>
  }

  lemma {:induction false} ArgsConst(w: World, args: seq<Arg>, e: Env, f: Env)
    requires ArgsPlain(args) && !ArgsRead(args)
    ensures EvalArgs(w, args, e) == EvalArgs(w, args, f)
    decreases args, 1
  {
    if args != [] {
      ArgConst(w, args[0], e, f);
      ArgsConst(w, args[1..], e, f);
    }
  }

  lemma {:induction false} ShortCircuitConst(w: World, stop: bool, args: seq<Arg>, e: Env, f: Env,
                                             piped: Option<Value>, last: Option<Value>)
    requires ArgsPlain(args) && !ArgsRead(args)
    ensures ShortCircuit(w, stop, args, e, piped, last) == ShortCircuit(w, stop, args, f, piped, last)
    decreases args, 1
  {
    if args != [] {
      ArgConst(w, args[0], e, f);
      var v := EvalArg(w, args[0], e);
      if v.Ok? {
        ShortCircuitConst(w, stop, args[1..], e, f, piped, Some(v.value));
      }
    }
  }

  lemma {:induction false} CommandConst(w: World, c: Command, e: Env, f: Env, piped: Option<Value>)
    requires CommandPlain(c) && !CommandReads(c)
    ensures EvalCommand(w, c, e, piped) == EvalCommand(w, c, f, piped)
    decreases c, 0
  {
    if c.args != [] {
      ArgConst(w, c.args[0], e, f);
      ArgsConst(w, c.args[1..], e, f);
      if c.args[0].Ident? {
        ShortCircuitConst(w, c.args[0].name == "or", c.args[1..], e, f, piped, None);
      }
    }
  }

  lemma {:induction false} CommandsConst(w: World, cmds: seq<Command>, e: Env, f: Env, piped: Option<Value>)
    requires CommandsPlain(cmds) && !CommandsRead(cmds)
    ensures EvalCommands(w, cmds, e, piped) == EvalCommands(w, cmds, f, piped)
    decreases cmds, 0
  {
    if cmds != [] {
      CommandConst(w, cmds[0], e, f, piped);
      var v := EvalCommand(w, cmds[0], e, piped);
      if v.Ok? {
        CommandsConst(w, cmds[1..], e, f, Some(v.value));
      }
    }
  }

  lemma {:induction false} PipeConst(w: World, p: Pipe, e: Env, f: Env)
    requires PipePlain(p) && !PipeReads(p)
    ensures EvalPipe(w, p, e) == EvalPipe(w, p, f)
    decreases p, 0
  {
    CommandsConst(w, p.cmds, e, f, None);
  }

  // ----- what reads is reported -----

  predicate Empty(a: Access) {
    a.keys == {} && !a.unattributed
  }

  lemma {:induction false} ArgReported(a: Arg)
    requires ArgReads(a)
    ensures !Empty(ArgAccess(a))
    decreases a, 0
  {
    if a.Nested? {
      PipeReported(a.pipe);
    } else if a.Field? && |a.path| == 1 {
      assert a.path[0] in ArgAccess(a).keys;
    }
  }

  lemma {:induction false} ArgsReported(args: seq<Arg>)
    requires ArgsRead(args)
    ensures !Empty(ArgsAccess(args))
    decreases args, 1
  {
    if ArgReads(args[0]) {
      ArgReported(args[0]);
    } else {
      ArgsReported(args[1..]);
    }
  }

  lemma {:induction false} CommandReported(c: Command)
    requires CommandReads(c)
    ensures !Empty(CommandAccess(c))
    decreases c, 0
  {
    if IsIndexOfDot(c) {
      assert c.args[2].text in CommandAccess(c).keys;
    } else {
      ArgsReported(c.args);
    }
  }

  lemma {:induction false} CommandsReported(cmds: seq<Command>)
    requires CommandsRead(cmds)
    ensures !Empty(CommandsAccess(cmds))
    decreases cmds, 0
  {
    if CommandReads(cmds[0]) {
      CommandReported(cmds[0]);
    } else {
      CommandsReported(cmds[1..]);
    }
  }

  lemma {:induction false} PipeReported(p: Pipe)
    requires PipeReads(p)
    ensures !Empty(PipeAccess(p))
    decreases p, 0
  {
    CommandsReported(p.cmds);
  }

  // ----- a pipe is its symbolic value -----

  lemma {:induction false} ArgIs(w: World, a: Arg, dot: SymDot, env: Env, params: Params)
    requires ArgPlain(a) && Accepted(ArgAccess(a)) && env.dot == DotFor(dot, params)
    ensures EvalArg(w, a, env) == ValueFor(SymArg(w, a, dot), params)
    decreases a, 0
  {
    match a
    case Field(path) =>
      assert path == [path[0]];
      OneField(w, env.dot, path[0]);
    case Nested(pipe) => PipeIs(w, pipe, dot, env, params);
    case _ => ArgConst(w, a, env, NOWHERE);
  }

  lemma {:induction false} CommandIs(w: World, c: Command, dot: SymDot, env: Env, params: Params)
    requires CommandPlain(c) && CommandReads(c) && Accepted(CommandAccess(c)) && env.dot == DotFor(dot, params)
    ensures EvalCommand(w, c, env, None) == ValueFor(SymCommand(w, c, dot), params)
    decreases c, 0
  {
    if IsIndexOfDot(c) {
      var key := c.args[2].text;
      assert c.args[1..] == [Dot, Str(key)];
      IndexArgs(w, key, env);
      assert [env.dot, Text(key)] + [] == [env.dot, Text(key)];
    } else {
      assert !c.args[0].Ident?;
      if |c.args| == 1 {
        AcceptedParts(ArgsAccess(c.args), Access({}, false, c.args[0].Ident? && ArgsRead(c.args), false));
        AcceptedParts(ArgAccess(c.args[0]), ArgsAccess(c.args[1..]));
        ArgIs(w, c.args[0], dot, env, params);
      }
    }
  }

  lemma {:induction false} PipeIs(w: World, p: Pipe, dot: SymDot, env: Env, params: Params)
    requires PipePlain(p) && Accepted(PipeAccess(p)) && env.dot == DotFor(dot, params)
    ensures EvalPipe(w, p, env) == ValueFor(SymPipe(w, p, dot), params)
    decreases p, 0
  {
    if PipeReads(p) {
      assert |p.cmds| == 1;
      var c := p.cmds[0];
      assert p.cmds == [c] && p.cmds[1..] == [] && !CommandsRead([]);
      AcceptedParts(CommandsAccess(p.cmds), Access({}, false, CommandsRead(p.cmds) && |p.cmds| > 1, false));
      AcceptedParts(CommandAccess(c), CommandsAccess(p.cmds[1..]));
      CommandIs(w, c, dot, env, params);
      var v := EvalCommand(w, c, env, None);
      if v.Ok? {
        assert EvalCommands(w, [], env, Some(v.value)) == v;
      }
    } else {
      PipeConst(w, p, env, NOWHERE);
    }
  }

  // ----- the skeleton of a template -----

  function ActionSkeleton(w: World, p: Pipe, dot: SymDot): Skeleton {
    var shown := p.decl == [];
    match SymPipe(w, p, dot)
    case Same(r) => if r.Err? then Broken else Pieces([Fixed(if shown then w.show(r.value) else "")])
    case Key(name, strict) => Pieces([Hole(name, strict, shown)])
  }

  function NodeSkeleton(w: World, node: Node, dot: SymDot): Skeleton
    decreases node, 0
  {
    match node
    case TextNode(text) => Pieces([Fixed(text)])
    case Action(pipe) => ActionSkeleton(w, pipe, dot)
    case If(pipe, list, els) =>
      var v := EvalPipe(w, pipe, NOWHERE);
      if v.Err? then Broken else ListSkeleton(w, if w.truth(v.value) then list else els, dot)
    case With(pipe, list, els) =>
      var v := EvalPipe(w, pipe, NOWHERE);
      if v.Err? then Broken
      else if w.truth(v.value) then ListSkeleton(w, list, Bound(v.value)) else ListSkeleton(w, els, dot)
    case Range(pipe, list, els) =>
      var v := EvalPipe(w, pipe, NOWHERE);
      if v.Err? || w.elements(v.value).Err? then Broken
      else if w.elements(v.value).value == [] then ListSkeleton(w, els, dot)
      else ItemsSkeleton(w, list, w.elements(v.value).value)
    case Template(_, _) => Broken
  }

  function ListSkeleton(w: World, nodes: seq<Node>, dot: SymDot): Skeleton
    decreases nodes, 1
  {
    if nodes == [] then Pieces([]) else Append(NodeSkeleton(w, nodes[0], dot), ListSkeleton(w, nodes[1..], dot))
  }

  function ItemsSkeleton(w: World, list: seq<Node>, items: seq<Value>): Skeleton
    decreases list, 2, |items|
  {
    if items == [] then Pieces([])
    else Append(ListSkeleton(w, list, Bound(items[0])), ItemsSkeleton(w, list, items[1..]))
  }

  ghost predicate Prints(r: Result<Output>, text: Result<string>) {
    r.Ok? == text.Ok? && (r.Ok? ==> r.value.text == text.value)
  }

  lemma OnePiece(p: Piece, params: Params)
    ensures FillPieces([p], params) == FillPiece(p, params)
  {
    assert [p][1..] == [];
    assert FillPieces([], params) == Ok("");
    if FillPiece(p, params).Ok? {
      assert FillPiece(p, params).value + "" == FillPiece(p, params).value;
    }
  }

  lemma ActionIs(w: World, p: Pipe, dot: SymDot, env: Env, params: Params)
    requires Verbatim(w) && PipePlain(p) && Accepted(PipeAccess(p)) && env.dot == DotFor(dot, params)
    ensures Prints(ExecNode(w, Action(p), env), Fill(ActionSkeleton(w, p, dot), params))
  {
    PipeIs(w, p, dot, env, params);
    var s := ActionSkeleton(w, p, dot);
    if s.Pieces? {
      OnePiece(s.pieces[0], params);
    }
  }

  lemma ConditionIs(w: World, p: Pipe, env: Env)
    requires PipePlain(p) && Accepted(ConditionAccess(p))
    ensures EvalPipe(w, p, env) == EvalPipe(w, p, NOWHERE)
  {
    if PipeReads(p) {
      PipeReported(p);
    } else {
      PipeConst(w, p, env, NOWHERE);
    }
  }

  lemma AcceptedParts(a: Access, b: Access)
    requires Accepted(Join(a, b))
    ensures Accepted(a) && Accepted(b)
  {
  }

  lemma {:induction false} ListIs(w: World, nodes: seq<Node>, dot: SymDot, env: Env, params: Params)
    requires Verbatim(w) && ListPlain(nodes) && Accepted(ListAccess(nodes)) && env.dot == DotFor(dot, params)
    ensures Prints(ExecList(w, nodes, env), Fill(ListSkeleton(w, nodes, dot), params))
    decreases nodes, 1
  {
    if nodes != [] {
      AcceptedParts(NodeAccess(nodes[0]), ListAccess(nodes[1..]));
      NodeIs(w, nodes[0], dot, env, params);
      FillAppend(NodeSkeleton(w, nodes[0], dot), ListSkeleton(w, nodes[1..], dot), params);
      var r := ExecNode(w, nodes[0], env);
      if r.Ok? {
        ListIs(w, nodes[1..], dot, Env(env.dot, r.value.vars), params);
      }
    }
  }

  lemma {:induction false} NodeIs(w: World, node: Node, dot: SymDot, env: Env, params: Params)
    requires Verbatim(w) && NodePlain(node) && Accepted(NodeAccess(node)) && env.dot == DotFor(dot, params)
    ensures Prints(ExecNode(w, node, env), Fill(NodeSkeleton(w, node, dot), params))
    decreases node, 1
  {
    match node
    case TextNode(text) => OnePiece(Fixed(text), params);
    case Action(pipe) => ActionIs(w, pipe, dot, env, params);
    case If(pipe, list, els) => BranchIs(w, node, dot, env, params);
    case With(pipe, list, els) => BranchIs(w, node, dot, env, params);
    case Range(pipe, list, els) => RangeIs(w, node, dot, env, params);
  }

  lemma BranchAccepted(pipe: Pipe, list: seq<Node>, els: seq<Node>)
    requires Accepted(Join(Join(ConditionAccess(pipe), ListAccess(list)), ListAccess(els)))
    ensures Accepted(ConditionAccess(pipe)) && Accepted(ListAccess(list)) && Accepted(ListAccess(els))
  {
    AcceptedParts(Join(ConditionAccess(pipe), ListAccess(list)), ListAccess(els));
    AcceptedParts(ConditionAccess(pipe), ListAccess(list));
  }

  lemma {:induction false} BranchIs(w: World, node: Node, dot: SymDot, env: Env, params: Params)
    requires (node.If? || node.With?) && NodePlain(node) && Accepted(NodeAccess(node))
    requires Verbatim(w) && env.dot == DotFor(dot, params)
    ensures Prints(ExecNode(w, node, env), Fill(NodeSkeleton(w, node, dot), params))
    decreases node, 0
  {
    BranchAccepted(node.pipe, node.list, node.els);
    ConditionIs(w, node.pipe, env);
    var v := EvalPipe(w, node.pipe, env);
    if v.Ok? {
      var vars := Declare(env.vars, node.pipe.decl, v.value);
      ListIs(w, node.list, if node.If? then dot else Bound(v.value),
             Env(if node.If? then env.dot else v.value, vars), params);
      ListIs(w, node.els, dot, Env(env.dot, vars), params);
    }
  }

  lemma {:induction false} RangeIs(w: World, node: Node, dot: SymDot, env: Env, params: Params)
    requires node.Range? && NodePlain(node) && Accepted(NodeAccess(node))
    requires Verbatim(w) && env.dot == DotFor(dot, params)
    ensures Prints(ExecNode(w, node, env), Fill(NodeSkeleton(w, node, dot), params))
    decreases node, 0
  {
    BranchAccepted(node.pipe, node.list, node.els);
    ConditionIs(w, node.pipe, env);
    var v := EvalPipe(w, node.pipe, env);
    if v.Ok? && w.elements(v.value).Ok? {
      var vars := Declare(env.vars, node.pipe.decl, v.value);
      ListIs(w, node.els, dot, Env(env.dot, vars), params);
      ItemsAre(w, node.list, w.elements(v.value).value, node.pipe.decl, vars, params);
    }
  }

  lemma {:induction false} ItemsAre(w: World, list: seq<Node>, items: seq<Value>, decl: seq<string>,
                                    vars: map<string, Value>, params: Params)
    requires Verbatim(w) && ListPlain(list) && Accepted(ListAccess(list))
    ensures Prints(ExecItems(w, list, items, decl, vars), Fill(ItemsSkeleton(w, list, items), params))
    decreases list, 2, |items|
  {
    if items != [] {
      ListIs(w, list, Bound(items[0]), Env(items[0], Declare(vars, decl, items[0])), params);
      ItemsAre(w, list, items[1..], decl, vars, params);
      FillAppend(ListSkeleton(w, list, Bound(items[0])), ItemsSkeleton(w, list, items[1..]), params);
    }
  }

  /** For every caller, an accepted template renders as one and the same skeleton
      with the caller's parameters in its holes. */
  lemma AcceptedIsSubstitution(w: World, nodes: seq<Node>, params: Params)
    requires Verbatim(w) && ListPlain(nodes) && Accepted(ListAccess(nodes))
    ensures Render(w, nodes, params) == Fill(ListSkeleton(w, nodes, Root), params)
  {
    ListIs(w, nodes, Root, Env(Caller(params), map["$" := Caller(params)]), params);
  }

  // ----- holes are reported -----

  ghost predicate HolesIn(s: Skeleton, keys: set<string>) {
    s.Pieces? ==> forall p :: p in s.pieces && p.Hole? ==> p.key in keys
  }

  lemma {:induction false} ArgKeys(w: World, a: Arg, dot: SymDot)
    ensures SymArg(w, a, dot).Key? ==> SymArg(w, a, dot).name in ArgAccess(a).keys
    decreases a, 0
  {
    if a.Nested? {
      PipeKeys(w, a.pipe, dot);
    }
  }

  lemma {:induction false} CommandKeys(w: World, c: Command, dot: SymDot)
    ensures SymCommand(w, c, dot).Key? ==> SymCommand(w, c, dot).name in CommandAccess(c).keys
    decreases c, 0
  {
    if !IsIndexOfDot(c) && |c.args| == 1 {
      ArgKeys(w, c.args[0], dot);
    }
  }

  lemma {:induction false} PipeKeys(w: World, p: Pipe, dot: SymDot)
    ensures SymPipe(w, p, dot).Key? ==> SymPipe(w, p, dot).name in PipeAccess(p).keys
    decreases p, 0
  {
    if |p.cmds| == 1 {
      CommandKeys(w, p.cmds[0], dot);
    }
  }

  lemma HolesAppend(s: Skeleton, t: Skeleton, a: set<string>, b: set<string>)
    requires HolesIn(s, a) && HolesIn(t, b)
    ensures HolesIn(Append(s, t), a + b)
  {
  }

  lemma {:induction false} NodeHoles(w: World, node: Node, dot: SymDot)
    ensures HolesIn(NodeSkeleton(w, node, dot), NodeAccess(node).keys)
    decreases node, 0
  {
    match node
    case TextNode(_) =>
    case Action(pipe) => PipeKeys(w, pipe, dot);
    case If(pipe, list, els) =>
      ListHoles(w, list, dot);
      ListHoles(w, els, dot);
    case With(pipe, list, els) =>
      var v := EvalPipe(w, pipe, NOWHERE);
      if v.Ok? {
        ListHoles(w, list, Bound(v.value));
      }
      ListHoles(w, els, dot);
    case Range(pipe, list, els) =>
      var v := EvalPipe(w, pipe, NOWHERE);
      ListHoles(w, els, dot);
      if v.Ok? && w.elements(v.value).Ok? {
        ItemsHoles(w, list, w.elements(v.value).value);
      }
    case Template(_, _) =>
  }

  lemma {:induction false} ListHoles(w: World, nodes: seq<Node>, dot: SymDot)
    ensures HolesIn(ListSkeleton(w, nodes, dot), ListAccess(nodes).keys)
    decreases nodes, 1
  {
    if nodes != [] {
      NodeHoles(w, nodes[0], dot);
      ListHoles(w, nodes[1..], dot);
      HolesAppend(NodeSkeleton(w, nodes[0], dot), ListSkeleton(w, nodes[1..], dot),
                  NodeAccess(nodes[0]).keys, ListAccess(nodes[1..]).keys);
    }
  }

  lemma {:induction false} ItemsHoles(w: World, list: seq<Node>, items: seq<Value>)
    ensures HolesIn(ItemsSkeleton(w, list, items), ListAccess(list).keys)
    decreases list, 2, |items|
  {
    if items != [] {
      ListHoles(w, list, Bound(items[0]));
      ItemsHoles(w, list, items[1..]);
      HolesAppend(ListSkeleton(w, list, Bound(items[0])), ItemsSkeleton(w, list, items[1..]),
                  ListAccess(list).keys, ListAccess(list).keys);
    }
  }
}
