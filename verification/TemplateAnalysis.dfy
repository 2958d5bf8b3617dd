/** The startup analysis of a configured template: which of the caller's
    parameters it reads, and in what ways. */
module TemplateAnalysis {
  import opened Templates
  import opened Wrappers

  /** `keys` are the parameters read by name. `unattributed` says that something is
      read that cannot be put down to a name, `transform` that a value reaches the
      output through a function, and `controlFlow` that a value decides a branch. */
  datatype Access = Access(keys: set<string>, unattributed: bool, transform: bool, controlFlow: bool)

  const NOTHING := Access({}, false, false, false)

  function Join(a: Access, b: Access): Access {
    Access(a.keys + b.keys, a.unattributed || b.unattributed, a.transform || b.transform,
           a.controlFlow || b.controlFlow)
  }

  // ----- what each part reads -----

  function ArgAccess(a: Arg): Access
    decreases a, 0
  {
    match a
    case Field(path) => Access(if path == [] then {} else {path[0]}, |path| != 1, false, false)
    case Dot => Access({}, true, false, false)
    case Variable(_) => Access({}, true, false, false)
    case Nested(pipe) => PipeAccess(pipe)
    case _ => NOTHING
  }

  predicate ArgReads(a: Arg)
    decreases a, 0
  {
    a.Field? || a.Dot? || a.Variable? || (a.Nested? && PipeReads(a.pipe))
  }

  function ArgsAccess(args: seq<Arg>): Access
    decreases args, 1
  {
    if args == [] then NOTHING else Join(ArgAccess(args[0]), ArgsAccess(args[1..]))
  }

  predicate ArgsRead(args: seq<Arg>)
    decreases args, 1
  {
    args != [] && (ArgReads(args[0]) || ArgsRead(args[1..]))
  }

  /** The documented indirect form, as in index . "name". */
  predicate IsIndexOfDot(c: Command) {
    |c.args| == 3 && c.args[0] == Ident("index") && c.args[1].Dot? && c.args[2].Str?
  }

  function CommandAccess(c: Command): Access
    decreases c, 0
  {
    if c.args == [] then NOTHING
    else if IsIndexOfDot(c) then Access({c.args[2].text}, false, false, false)
    else Join(ArgsAccess(c.args), Access({}, false, c.args[0].Ident? && ArgsRead(c.args), false))
  }

  predicate CommandReads(c: Command)
    decreases c, 0
  {
    c.args != [] && (IsIndexOfDot(c) || ArgsRead(c.args))
  }

  function CommandsAccess(cmds: seq<Command>): Access
    decreases cmds, 0
  {
    if cmds == [] then NOTHING else Join(CommandAccess(cmds[0]), CommandsAccess(cmds[1..]))
  }

  predicate CommandsRead(cmds: seq<Command>)
    decreases cmds, 0
  {
    cmds != [] && (CommandReads(cmds[0]) || CommandsRead(cmds[1..]))
  }

  function PipeAccess(p: Pipe): Access
    decreases p, 0
  {
    Join(CommandsAccess(p.cmds), Access({}, false, CommandsRead(p.cmds) && |p.cmds| > 1, false))
  }

  predicate PipeReads(p: Pipe)
    decreases p, 0
  {
    CommandsRead(p.cmds)
  }

  /** A pipe that decides a branch: whatever it reads is control flow. */
  function ConditionAccess(p: Pipe): Access {
    var a := PipeAccess(p);
    Access(a.keys, a.unattributed, false, a.keys != {} || a.unattributed)
  }

  function NodeAccess(node: Node): Access
    decreases node, 0
  {
    match node
    case TextNode(_) => NOTHING
    case Action(pipe) => PipeAccess(pipe)
    case If(pipe, list, els) => Join(Join(ConditionAccess(pipe), ListAccess(list)), ListAccess(els))
    case Range(pipe, list, els) => Join(Join(ConditionAccess(pipe), ListAccess(list)), ListAccess(els))
    case With(pipe, list, els) => Join(Join(ConditionAccess(pipe), ListAccess(list)), ListAccess(els))
    case Template(_, argument) =>
      Join(Access({}, true, false, false), if argument.None? then NOTHING else PipeAccess(argument.value))
  }

  function ListAccess(nodes: seq<Node>): Access
    decreases nodes, 0
  {
    if nodes == [] then NOTHING else Join(NodeAccess(nodes[0]), ListAccess(nodes[1..]))
  }

  // ----- the walkers -----

  /** The analysis as it is written: one record that every walker updates. */
  class TemplateAccess {
    var keys: set<string>
    var unattributed: bool
    var transform: bool
    var controlFlow: bool

    constructor ()
      ensures Found() == NOTHING
    {
      keys, unattributed, transform, controlFlow := {}, false, false, false;
    }

    function Found(): Access
      reads this
    {
      Access(keys, unattributed, transform, controlFlow)
    }

    method WalkList(nodes: seq<Node>)
      modifies this
      ensures Found() == Join(old(Found()), ListAccess(nodes))
      decreases nodes, 1
    {
      for i := 0 to |nodes|
        invariant Join(old(Found()), ListAccess(nodes)) == Join(Found(), ListAccess(nodes[i..]))
      {
        assert nodes[i..][0] == nodes[i] && nodes[i..][1..] == nodes[i + 1..];
        WalkNode(nodes[i]);
      }
    }

    method WalkNode(node: Node)
      modifies this
      ensures Found() == Join(old(Found()), NodeAccess(node))
      decreases node, 1
    {
      match node
      case TextNode(_) =>
      case Action(pipe) =>
        var _ := WalkPipe(pipe);
      case If(pipe, list, els) => WalkControlFlow(node, pipe, list, els);
      case Range(pipe, list, els) => WalkControlFlow(node, pipe, list, els);
      case With(pipe, list, els) => WalkControlFlow(node, pipe, list, els);
      case Template(_, argument) =>
        unattributed := true;
        if argument.Some? {
          var _ := WalkPipe(argument.value);
        }
    }

    /** The condition is walked into a record of its own; its transforms are not
        carried over. */
    method WalkControlFlow(ghost node: Node, pipe: Pipe, list: seq<Node>, els: seq<Node>)
      requires node == If(pipe, list, els) || node == Range(pipe, list, els) || node == With(pipe, list, els)
      modifies this
      ensures Found() == Join(Join(Join(old(Found()), ConditionAccess(pipe)), ListAccess(list)), ListAccess(els))
      decreases node, 0
    {
      var condition := new TemplateAccess();
      var _ := condition.WalkPipe(pipe);
      if condition.keys != {} || condition.unattributed {
        controlFlow := true;
      }
      keys := keys + condition.keys;
      unattributed := unattributed || condition.unattributed;
      assert Found() == Join(old(Found()), ConditionAccess(pipe));
      WalkList(list);
      WalkList(els);
    }

    method WalkPipe(pipe: Pipe) returns (touched: bool)
      modifies this
      ensures Found() == Join(old(Found()), PipeAccess(pipe)) && touched == PipeReads(pipe)
      decreases pipe, 1
    {
      touched := false;
      for i := 0 to |pipe.cmds|
        invariant Join(old(Found()), CommandsAccess(pipe.cmds)) == Join(Found(), CommandsAccess(pipe.cmds[i..]))
        invariant CommandsRead(pipe.cmds) == (touched || CommandsRead(pipe.cmds[i..]))
      {
        assert pipe.cmds[i..][0] == pipe.cmds[i] && pipe.cmds[i..][1..] == pipe.cmds[i + 1..];
        var r := WalkCommand(pipe.cmds[i]);
        if r {
          touched := true;
        }
      }
      if touched && |pipe.cmds| > 1 {
        transform := true;
      }
    }

    method WalkCommand(c: Command) returns (touched: bool)
      modifies this
      ensures Found() == Join(old(Found()), CommandAccess(c)) && touched == CommandReads(c)
      decreases c, 1
    {
      if c.args == [] {
        return false;
      }
      if |c.args| == 3 && c.args[0] == Ident("index") && c.args[1].Dot? && c.args[2].Str? {
        keys := keys + {c.args[2].text};
        return true;
      }
      touched := WalkArgs(c.args);
      if touched && c.args[0].Ident? {
        transform := true;
      }
    }

    method WalkArgs(args: seq<Arg>) returns (touched: bool)
      modifies this
      ensures Found() == Join(old(Found()), ArgsAccess(args)) && touched == ArgsRead(args)
      decreases args, 2
    {
      touched := false;
      for i := 0 to |args|
        invariant Join(old(Found()), ArgsAccess(args)) == Join(Found(), ArgsAccess(args[i..]))
        invariant ArgsRead(args) == (touched || ArgsRead(args[i..]))
      {
        assert args[i..][0] == args[i] && args[i..][1..] == args[i + 1..];
        var r := WalkArg(args[i]);
        if r {
          touched := true;
        }
      }
    }

    method WalkArg(a: Arg) returns (touched: bool)
      modifies this
      ensures Found() == Join(old(Found()), ArgAccess(a)) && touched == ArgReads(a)
      decreases a, 1
    {
      touched := false;
      match a
      case Field(path) =>
        if |path| > 0 {
          keys := keys + {path[0]};
        }
        if |path| != 1 {
          unattributed := true;
        }
        touched := true;
      case Dot =>
        unattributed := true;
        touched := true;
      case Variable(_) =>
        unattributed := true;
        touched := true;
      case Nested(pipe) =>
        touched := WalkPipe(pipe);
      case _ =>
    }
  }
}
