/** What the analysis of a template reports, over the occurrences in its tree: every key it
    reads and every flag it sets has an occurrence that is the reason, and the other way round. */
module TemplateReads {
  import opened TemplateAnalysis
  import opened Templates
  import opened Wrappers

  // ----- occurrences -----

  /** The documented indirect form: index . "name". */
  ghost predicate ByIndex(c: Command) {
    exists k :: c == Command([Ident("index"), Dot, Str(k)])
  }

  /** A field, the dot or a variable. */
  predicate IsRead(a: Arg) {
    a.Field? || a.Dot? || a.Variable?
  }

  /** The pipe and the pipes in parentheses within it. */
  ghost function PipesIn(p: Pipe): set<Pipe>
    decreases p, 0
  {
    {p} + PipesInCommands(p.cmds)
  }

  ghost function PipesInCommands(cmds: seq<Command>): set<Pipe>
    decreases cmds, 0
  {
    if cmds == [] then {} else PipesInArgs(cmds[0].args) + PipesInCommands(cmds[1..])
  }

  ghost function PipesInArgs(args: seq<Arg>): set<Pipe>
    decreases args, 1
  {
    if args == [] then {} else PipesInArg(args[0]) + PipesInArgs(args[1..])
  }

  ghost function PipesInArg(a: Arg): set<Pipe>
    decreases a, 0
  {
    if a.Nested? then PipesIn(a.pipe) else {}
  }

  /** The nodes of a template, those in branches and loops among them. */
  ghost function NodesIn(nodes: seq<Node>): set<Node>
    decreases nodes, 0
  {
    if nodes == [] then {} else {nodes[0]} + NodesBelow(nodes[0]) + NodesIn(nodes[1..])
  }

  ghost function NodesBelow(n: Node): set<Node>
    decreases n, 0
  {
    if IsBranch(n) then NodesIn(n.list) + NodesIn(n.els) else {}
  }

  predicate IsBranch(n: Node) {
    n.If? || n.Range? || n.With?
  }

  /** `p` is printed by `n`, or is the argument of a named template. */
  predicate Prints(n: Node, p: Pipe) {
    (n.Action? && n.pipe == p) || (n.Template? && n.argument == Some(p))
  }

  predicate Decides(n: Node, p: Pipe) {
    IsBranch(n) && n.pipe == p
  }

  // ----- what an occurrence reads -----

  ghost predicate NamesKey(c: Command, k: string) {
    c == Command([Ident("index"), Dot, Str(k)]) ||
    (!ByIndex(c) && exists a :: a in c.args && a.Field? && a.path != [] && a.path[0] == k)
  }

  /** The dot, a variable or a field path of no or several names. */
  predicate IsVague(a: Arg) {
    a.Dot? || a.Variable? || (a.Field? && |a.path| != 1)
  }

  ghost predicate ReadsVaguely(c: Command) {
    !ByIndex(c) && exists a :: a in c.args && IsVague(a)
  }

  ghost predicate ReadsAtAll(c: Command) {
    ByIndex(c) || exists a :: a in c.args && IsRead(a)
  }

  /** Something in the pipe, parentheses included, reads the caller. */
  ghost predicate Touches(p: Pipe) {
    ReadIn(PipesIn(p))
  }

  ghost predicate ArgTouches(a: Arg) {
    IsRead(a) || (a.Nested? && Touches(a.pipe))
  }

  /** A call of a function, other than the indirect form, on something that reads. */
  ghost predicate CallsWithRead(c: Command) {
    !ByIndex(c) && c.args != [] && c.args[0].Ident? && exists a :: a in c.args && ArgTouches(a)
  }

  ghost predicate TransformsHere(p: Pipe) {
    (|p.cmds| > 1 && Touches(p)) || exists c :: c in p.cmds && CallsWithRead(c)
  }

  // ----- commands and arguments -----

  lemma ByIndexExactly(c: Command)
    ensures IsIndexOfDot(c) <==> ByIndex(c)
    ensures IsIndexOfDot(c) ==> c == Command([Ident("index"), Dot, Str(c.args[2].text)])
    ensures ByIndex(c) ==> PipesInArgs(c.args) == {}
  {
    if IsIndexOfDot(c) {
      assert c.args == [c.args[0], c.args[1], c.args[2]];
      assert c == Command([Ident("index"), Dot, Str(c.args[2].text)]);
    }
    if ByIndex(c) {
      var k :| c == Command([Ident("index"), Dot, Str(k)]);
      assert c.args[1..] == [Dot, Str(k)] && [Dot, Str(k)][1..] == [Str(k)] && [Str(k)][1..] == [];
      assert PipesInArgs([Str(k)]) == {} && PipesInArgs([Dot, Str(k)]) == {};
    }
  }

  /** A command of one of the pipes reads. */
  ghost predicate ReadIn(pipes: set<Pipe>) {
    exists q, c :: q in pipes && c in q.cmds && ReadsAtAll(c)
  }

  ghost predicate KeyIn(pipes: set<Pipe>, k: string) {
    exists q, c :: q in pipes && c in q.cmds && NamesKey(c, k)
  }

  ghost predicate VagueIn(pipes: set<Pipe>) {
    exists q, c :: q in pipes && c in q.cmds && ReadsVaguely(c)
  }

  ghost predicate TransformIn(pipes: set<Pipe>) {
    exists q :: q in pipes && TransformsHere(q)
  }

  lemma InBoth(s: set<Pipe>, t: set<Pipe>, k: string)
    ensures ReadIn(s + t) <==> ReadIn(s) || ReadIn(t)
    ensures KeyIn(s + t, k) <==> KeyIn(s, k) || KeyIn(t, k)
    ensures VagueIn(s + t) <==> VagueIn(s) || VagueIn(t)
    ensures TransformIn(s + t) <==> TransformIn(s) || TransformIn(t)
  {
  }

  lemma InOne(p: Pipe, k: string)
    ensures ReadIn({p}) <==> exists c :: c in p.cmds && ReadsAtAll(c)
    ensures KeyIn({p}, k) <==> exists c :: c in p.cmds && NamesKey(c, k)
    ensures VagueIn({p}) <==> exists c :: c in p.cmds && ReadsVaguely(c)
    ensures TransformIn({p}) <==> TransformsHere(p)
  {
  }

  /** The analysis of one pipe, but for transforms. */
  lemma {:induction false} PipeExactly(p: Pipe, k: string)
    ensures PipeReads(p) <==> ReadIn(PipesIn(p))
    ensures k in PipeAccess(p).keys <==> KeyIn(PipesIn(p), k)
    ensures PipeAccess(p).unattributed <==> VagueIn(PipesIn(p))
    decreases p, 0
  {
    CommandsExactly(p.cmds, k);
    InBoth({p}, PipesInCommands(p.cmds), k);
    InOne(p, k);
  }

  lemma {:induction false} CommandsExactly(cmds: seq<Command>, k: string)
    ensures CommandsRead(cmds) <==> (exists c :: c in cmds && ReadsAtAll(c)) || ReadIn(PipesInCommands(cmds))
    ensures k in CommandsAccess(cmds).keys <==> (exists c :: c in cmds && NamesKey(c, k)) || KeyIn(PipesInCommands(cmds), k)
    ensures CommandsAccess(cmds).unattributed <==> (exists c :: c in cmds && ReadsVaguely(c)) || VagueIn(PipesInCommands(cmds))
    decreases cmds, 0
  {
    if cmds != [] {
      var c, rest := cmds[0], cmds[1..];
      assert cmds == [c] + rest;
      CommandsExactly(rest, k);
      CommandExactly(c, k);
      InBoth(PipesInArgs(c.args), PipesInCommands(rest), k);
    }
  }

  lemma CommandExactly(c: Command, k: string)
    ensures CommandReads(c) <==> ReadsAtAll(c) || ReadIn(PipesInArgs(c.args))
    ensures k in CommandAccess(c).keys <==> NamesKey(c, k) || KeyIn(PipesInArgs(c.args), k)
    ensures CommandAccess(c).unattributed <==> ReadsVaguely(c) || VagueIn(PipesInArgs(c.args))
    decreases c, 1
  {
    ByIndexExactly(c);
    ArgsExactly(c.args, k);
    if ByIndex(c) {
      assert NamesKey(c, k) <==> c.args[2].text == k;
    }
  }

  lemma {:induction false} ArgsExactly(args: seq<Arg>, k: string)
    ensures ArgsRead(args) <==> (exists a :: a in args && IsRead(a)) || ReadIn(PipesInArgs(args))
    ensures k in ArgsAccess(args).keys <==>
            (exists a :: a in args && a.Field? && a.path != [] && a.path[0] == k) || KeyIn(PipesInArgs(args), k)
    ensures ArgsAccess(args).unattributed <==> (exists a :: a in args && IsVague(a)) || VagueIn(PipesInArgs(args))
    decreases args, 1
  {
    if args != [] {
      var a, rest := args[0], args[1..];
      assert args == [a] + rest;
      ArgsExactly(rest, k);
      ArgExactly(a, k);
      InBoth(PipesInArg(a), PipesInArgs(rest), k);
    }
  }

  lemma {:induction false} ArgExactly(a: Arg, k: string)
    ensures ArgReads(a) <==> IsRead(a) || ReadIn(PipesInArg(a))
    ensures k in ArgAccess(a).keys <==> (a.Field? && a.path != [] && a.path[0] == k) || KeyIn(PipesInArg(a), k)
    ensures ArgAccess(a).unattributed <==> IsVague(a) || VagueIn(PipesInArg(a))
    decreases a, 0
  {
    if a.Nested? {
      PipeExactly(a.pipe, k);
    }
  }

  // ----- transforms -----

  lemma ArgsTouch(args: seq<Arg>)
    ensures ArgsRead(args) <==> exists a :: a in args && ArgTouches(a)
  {
    if args != [] {
      var a, rest := args[0], args[1..];
      assert args == [a] + rest;
      ArgsTouch(rest);
      ArgExactly(a, "");
      assert !a.Nested? ==> PipesInArg(a) == {} && !ReadIn(PipesInArg(a));
      assert ArgReads(a) <==> ArgTouches(a);
    }
  }

  lemma {:induction false} PipeTransforms(p: Pipe)
    ensures PipeAccess(p).transform <==> TransformIn(PipesIn(p))
    decreases p, 0
  {
    CommandsTransform(p.cmds);
    PipeExactly(p, "");
    InBoth({p}, PipesInCommands(p.cmds), "");
    InOne(p, "");
  }

  lemma {:induction false} CommandsTransform(cmds: seq<Command>)
    ensures CommandsAccess(cmds).transform <==> (exists c :: c in cmds && CallsWithRead(c)) || TransformIn(PipesInCommands(cmds))
    decreases cmds, 0
  {
    if cmds != [] {
      var c, rest := cmds[0], cmds[1..];
      assert cmds == [c] + rest;
      CommandsTransform(rest);
      CommandTransforms(c);
      InBoth(PipesInArgs(c.args), PipesInCommands(rest), "");
    }
  }

  lemma CommandTransforms(c: Command)
    ensures CommandAccess(c).transform <==> CallsWithRead(c) || TransformIn(PipesInArgs(c.args))
    decreases c, 1
  {
    ByIndexExactly(c);
    ArgsTouch(c.args);
    ArgsTransform(c.args);
    if c.args == [] || ByIndex(c) {
      assert PipesInArgs(c.args) == {} && !TransformIn({});
    }
  }

  lemma {:induction false} ArgsTransform(args: seq<Arg>)
    ensures ArgsAccess(args).transform <==> TransformIn(PipesInArgs(args))
    decreases args, 1
  {
    if args != [] {
      ArgsTransform(args[1..]);
      ArgTransforms(args[0]);
      InBoth(PipesInArg(args[0]), PipesInArgs(args[1..]), "");
    }
  }

  lemma {:induction false} ArgTransforms(a: Arg)
    ensures ArgAccess(a).transform <==> TransformIn(PipesInArg(a))
    decreases a, 0
  {
    if a.Nested? {
      PipeTransforms(a.pipe);
    }
  }

  // ----- conditions -----

  lemma CommandReadsSomething(c: Command)
    ensures ReadsAtAll(c) <==> ReadsVaguely(c) || exists k :: NamesKey(c, k)
  {
    if ByIndex(c) {
      var k :| c == Command([Ident("index"), Dot, Str(k)]);
      assert NamesKey(c, k);
    } else if ReadsAtAll(c) {
      var a :| a in c.args && IsRead(a);
      if a.Field? && |a.path| == 1 {
        assert NamesKey(c, a.path[0]);
      }
    }
  }

  lemma ReadsSomething(pipes: set<Pipe>)
    ensures ReadIn(pipes) <==> VagueIn(pipes) || exists k :: KeyIn(pipes, k)
  {
    if ReadIn(pipes) {
      var q, c :| q in pipes && c in q.cmds && ReadsAtAll(c);
      CommandReadsSomething(c);
      if !ReadsVaguely(c) {
        var k :| NamesKey(c, k);
        assert KeyIn(pipes, k);
      }
    } else if VagueIn(pipes) {
      var q, c :| q in pipes && c in q.cmds && ReadsVaguely(c);
      CommandReadsSomething(c);
    } else if exists k :: KeyIn(pipes, k) {
      var k :| KeyIn(pipes, k);
      var q, c :| q in pipes && c in q.cmds && NamesKey(c, k);
      CommandReadsSomething(c);
    }
  }

  /** A pipe that reads at all decides its branch. */
  lemma ConditionDecides(p: Pipe)
    ensures ConditionAccess(p).controlFlow <==> Touches(p)
  {
    ReadsSomething(PipesIn(p));
    PipeExactly(p, "");
    forall k ensures k in PipeAccess(p).keys <==> KeyIn(PipesIn(p), k) {
      PipeExactly(p, k);
    }
  }

  // ----- the whole template -----

  ghost predicate KeyAt(ns: set<Node>, k: string) {
    exists n, p :: n in ns && (Prints(n, p) || Decides(n, p)) && KeyIn(PipesIn(p), k)
  }

  ghost predicate VagueAt(ns: set<Node>) {
    (exists n :: n in ns && n.Template?) || exists n, p :: n in ns && (Prints(n, p) || Decides(n, p)) && VagueIn(PipesIn(p))
  }

  ghost predicate TransformAt(ns: set<Node>) {
    exists n, p :: n in ns && Prints(n, p) && TransformIn(PipesIn(p))
  }

  ghost predicate DecisionAt(ns: set<Node>) {
    exists n, p :: n in ns && Decides(n, p) && Touches(p)
  }

  /** What an analysis found is what is there. */
  ghost predicate Reported(a: Access, ns: set<Node>) {
    (forall k :: k in a.keys <==> KeyAt(ns, k)) && (a.unattributed <==> VagueAt(ns)) &&
    (a.transform <==> TransformAt(ns)) && (a.controlFlow <==> DecisionAt(ns))
  }

  lemma AtBoth(s: set<Node>, t: set<Node>)
    ensures forall k :: KeyAt(s + t, k) <==> KeyAt(s, k) || KeyAt(t, k)
    ensures VagueAt(s + t) <==> VagueAt(s) || VagueAt(t)
    ensures TransformAt(s + t) <==> TransformAt(s) || TransformAt(t)
    ensures DecisionAt(s + t) <==> DecisionAt(s) || DecisionAt(t)
  {
  }

  lemma ReportedJoin(a: Access, s: set<Node>, b: Access, t: set<Node>)
    requires Reported(a, s) && Reported(b, t)
    ensures Reported(Join(a, b), s + t)
  {
    AtBoth(s, t);
  }

  lemma PipeReported(p: Pipe)
    ensures forall k :: k in PipeAccess(p).keys <==> KeyIn(PipesIn(p), k)
    ensures PipeAccess(p).unattributed <==> VagueIn(PipesIn(p))
    ensures PipeAccess(p).transform <==> TransformIn(PipesIn(p))
    ensures ConditionAccess(p).controlFlow <==> Touches(p)
  {
    forall k ensures k in PipeAccess(p).keys <==> KeyIn(PipesIn(p), k) {
      PipeExactly(p, k);
    }
    PipeExactly(p, "");
    PipeTransforms(p);
    ConditionDecides(p);
  }

  lemma {:induction false} NoControlFlow(p: Pipe)
    ensures !PipeAccess(p).controlFlow
    decreases p, 0
  {
    NoneInCommands(p.cmds);
  }

  lemma {:induction false} NoneInCommands(cmds: seq<Command>)
    ensures !CommandsAccess(cmds).controlFlow
    decreases cmds, 0
  {
    if cmds != [] {
      NoneInArgs(cmds[0].args);
      NoneInCommands(cmds[1..]);
    }
  }

  lemma {:induction false} NoneInArgs(args: seq<Arg>)
    ensures !ArgsAccess(args).controlFlow
    decreases args, 1
  {
    if args != [] {
      NoneInArg(args[0]);
      NoneInArgs(args[1..]);
    }
  }

  lemma {:induction false} NoneInArg(a: Arg)
    ensures !ArgAccess(a).controlFlow
    decreases a, 0
  {
    if a.Nested? {
      NoControlFlow(a.pipe);
    }
  }

  lemma PrintedReported(n: Node, p: Pipe)
    requires Prints(n, p)
    ensures Reported(if n.Action? then PipeAccess(p) else Join(Access({}, true, false, false), PipeAccess(p)), {n})
  {
    PipeReported(p);
    NoControlFlow(p);
    assert forall q :: Prints(n, q) || Decides(n, q) ==> q == p;
  }

  lemma DecidingReported(n: Node, p: Pipe)
    requires Decides(n, p)
    ensures Reported(ConditionAccess(p), {n})
  {
    PipeReported(p);
    assert forall q :: Prints(n, q) || Decides(n, q) ==> q == p;
  }

  lemma {:induction false} NodeReported(n: Node)
    ensures Reported(NodeAccess(n), {n} + NodesBelow(n))
    decreases n, 0
  {
    if IsBranch(n) {
      DecidingReported(n, n.pipe);
      AccessExactly(n.list);
      AccessExactly(n.els);
      ReportedJoin(ConditionAccess(n.pipe), {n}, ListAccess(n.list), NodesIn(n.list));
      ReportedJoin(Join(ConditionAccess(n.pipe), ListAccess(n.list)), {n} + NodesIn(n.list), ListAccess(n.els), NodesIn(n.els));
      assert {n} + NodesIn(n.list) + NodesIn(n.els) == {n} + NodesBelow(n);
    } else if n.Action? {
      PrintedReported(n, n.pipe);
    } else if n.Template? && n.argument.Some? {
      PrintedReported(n, n.argument.value);
    }
  }

  /** The analysis reports a key exactly when a command names it; something that no name
      accounts for exactly when a command, other than the indirect form, has the dot, a
      variable or a field path that is not one name, or there is a named template; a
      transform exactly when a printed pipe of several commands reads, or a call other than
      the indirect form takes something that reads; and control flow exactly when the pipe
      of a branch or loop reads. */
  lemma {:induction false} AccessExactly(nodes: seq<Node>)
    ensures Reported(ListAccess(nodes), NodesIn(nodes))
    decreases nodes, 0
  {
    if nodes != [] {
      NodeReported(nodes[0]);
      AccessExactly(nodes[1..]);
      ReportedJoin(NodeAccess(nodes[0]), {nodes[0]} + NodesBelow(nodes[0]), ListAccess(nodes[1..]), NodesIn(nodes[1..]));
    }
  }
}
