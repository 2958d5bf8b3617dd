/** Configured text templates: the parsed form and what executing it does with a
    caller's parameters. */
module Templates {
  import opened Wrappers

  // ----- the parsed form -----

  /** An operand. A chain selects fields of a parenthesised pipe, as in (.).name. */
  datatype Arg =
    | Ident(name: string)
    | Field(path: seq<string>)
    | Dot
    | Variable(path: seq<string>)
    | Str(text: string)
    | Const(id: int)
    | Nested(pipe: Pipe)
    | Chain(pipe: Pipe, fields: seq<string>)

  datatype Command = Command(args: seq<Arg>)

  /** A pipe, with the variables it declares. */
  datatype Pipe = Pipe(decl: seq<string>, cmds: seq<Command>)

  datatype Node =
    | TextNode(text: string)
    | Action(pipe: Pipe)
    | If(pipe: Pipe, list: seq<Node>, els: seq<Node>)
    | Range(pipe: Pipe, list: seq<Node>, els: seq<Node>)
    | With(pipe: Pipe, list: seq<Node>, els: seq<Node>)
    | Template(name: string, argument: Option<Pipe>)

  // ----- values -----

  type Params = map<string, string>

  /** A value: text, the caller's whole map, or anything else. */
  datatype Value = Text(s: string) | Caller(params: Params) | Thing(id: int)

  /** What the template engine and its function library do with values. */
  datatype World = World(
    call: (string, seq<Value>) -> Result<Value>,
    field: (Value, string) -> Result<Value>,
    truth: Value -> bool,
    elements: Value -> Result<seq<Value>>,
    show: Value -> string,
    template: (string, Option<Value>) -> Result<string>)

  datatype Env = Env(dot: Value, vars: map<string, Value>)

  /** A key the caller did not give is an error (missingkey=error). */
  function GetField(w: World, v: Value, name: string): Result<Value> {
    if v.Caller? then (if name in v.params then Ok(Text(v.params[name])) else Err) else w.field(v, name)
  }

  function GetFields(w: World, v: Value, path: seq<string>): Result<Value>
    decreases |path|
  {
    if path == [] then Ok(v)
    else
      var next := GetField(w, v, path[0]);
      if next.Err? then Err else GetFields(w, next.value, path[1..])
  }

  /** The index function gives an empty text for a key the caller did not give, and
      goes on indexing that text when there are more indices. */
  function CallFunction(w: World, name: string, args: seq<Value>): Result<Value> {
    if name == "index" && |args| >= 2 && args[0].Caller? && args[1].Text? then
      var found := Text(if args[1].s in args[0].params then args[0].params[args[1].s] else "");
      if |args| == 2 then Ok(found) else w.call("index", [found] + args[2..])
    else w.call(name, args)
  }

  function LookupVariable(w: World, env: Env, path: seq<string>): Result<Value> {
    if path == [] || path[0] !in env.vars then Err else GetFields(w, env.vars[path[0]], path[1..])
  }

  // ----- evaluation -----

  function EvalPipe(w: World, p: Pipe, env: Env): Result<Value>
    decreases p, 0
  {
    EvalCommands(w, p.cmds, env, None)
  }

  /** Each command gets the value of the one before as its last argument. */
  function EvalCommands(w: World, cmds: seq<Command>, env: Env, piped: Option<Value>): Result<Value>
    decreases cmds, 0
  {
    if cmds == [] then (if piped.None? then Err else Ok(piped.value))
    else
      var v := EvalCommand(w, cmds[0], env, piped);
      if v.Err? then Err else EvalCommands(w, cmds[1..], env, Some(v.value))
  }

  /** Only a function takes arguments. */
  function EvalCommand(w: World, c: Command, env: Env, piped: Option<Value>): Result<Value>
    decreases c, 0
  {
    if c.args == [] then Err
    else if c.args[0].Ident? then EvalCall(w, c.args[0].name, c.args[1..], env, piped)
    else if |c.args| > 1 || piped.Some? then Err
    else EvalArg(w, c.args[0], env)
  }

  /** `and` and `or` stop at the argument that decides them. */
  function EvalCall(w: World, name: string, args: seq<Arg>, env: Env, piped: Option<Value>): Result<Value>
    decreases args, 2
  {
    if name == "and" || name == "or" then ShortCircuit(w, name == "or", args, env, piped, None)
    else
      var vs := EvalArgs(w, args, env);
      if vs.Err? then Err
      else CallFunction(w, name, vs.value + if piped.Some? then [piped.value] else [])
  }

  function ShortCircuit(w: World, stop: bool, args: seq<Arg>, env: Env, piped: Option<Value>, last: Option<Value>)
    : Result<Value>
    decreases args, 1
  {
    if args == [] then
      (if piped.Some? then Ok(piped.value) else if last.Some? then Ok(last.value) else Err)
    else
      var v := EvalArg(w, args[0], env);
      if v.Err? then Err
      else if w.truth(v.value) == stop then v
      else ShortCircuit(w, stop, args[1..], env, piped, Some(v.value))
  }

  function EvalArgs(w: World, args: seq<Arg>, env: Env): Result<seq<Value>>
    decreases args, 1
  {
    if args == [] then Ok([])
    else
      var v, vs := EvalArg(w, args[0], env), EvalArgs(w, args[1..], env);
      if v.Err? || vs.Err? then Err else Ok([v.value] + vs.value)
  }

  function EvalArg(w: World, a: Arg, env: Env): Result<Value>
    decreases a, 0
  {
    match a
    case Ident(name) => CallFunction(w, name, [])
    case Field(path) => GetFields(w, env.dot, path)
    case Dot => Ok(env.dot)
    case Variable(path) => LookupVariable(w, env, path)
    case Str(text) => Ok(Text(text))
    case Const(id) => Ok(Thing(id))
    case Nested(pipe) => EvalPipe(w, pipe, env)
    case Chain(pipe, fields) =>
      var v := EvalPipe(w, pipe, env);
      if v.Err? then Err else GetFields(w, v.value, fields)
  }

  // ----- execution -----

  datatype Output = Output(text: string, vars: map<string, Value>)

  function Declare(vars: map<string, Value>, names: seq<string>, v: Value): map<string, Value> {
    if names == [] then vars else Declare(vars, names[1..], v)[names[0] := v]
  }

  function ExecList(w: World, nodes: seq<Node>, env: Env): Result<Output>
    decreases nodes, 1
  {
    if nodes == [] then Ok(Output("", env.vars))
    else
      var first := ExecNode(w, nodes[0], env);
      if first.Err? then Err
      else
        var rest := ExecList(w, nodes[1..], Env(env.dot, first.value.vars));
        if rest.Err? then Err else Ok(Output(first.value.text + rest.value.text, rest.value.vars))
  }

  /** A pipe that declares variables prints nothing; variables declared inside a
      branch end with it. */
  function ExecNode(w: World, node: Node, env: Env): Result<Output>
    decreases node, 0
  {
    match node
    case TextNode(text) => Ok(Output(text, env.vars))
    case Action(pipe) =>
      var v := EvalPipe(w, pipe, env);
      if v.Err? then Err
      else Ok(Output(if pipe.decl == [] then w.show(v.value) else "", Declare(env.vars, pipe.decl, v.value)))
    case If(pipe, list, els) =>
      var v := EvalPipe(w, pipe, env);
      if v.Err? then Err
      else
        Scoped(env, ExecList(w, if w.truth(v.value) then list else els,
                             Env(env.dot, Declare(env.vars, pipe.decl, v.value))))
    case With(pipe, list, els) =>
      var v := EvalPipe(w, pipe, env);
      if v.Err? then Err
      else
        var vars := Declare(env.vars, pipe.decl, v.value);
        Scoped(env, if w.truth(v.value) then ExecList(w, list, Env(v.value, vars))
                    else ExecList(w, els, Env(env.dot, vars)))
    case Range(pipe, list, els) =>
      var v := EvalPipe(w, pipe, env);
      if v.Err? then Err
      else
        var items := w.elements(v.value);
        if items.Err? then Err
        else
          var vars := Declare(env.vars, pipe.decl, v.value);
          Scoped(env, if items.value == [] then ExecList(w, els, Env(env.dot, vars))
                      else ExecItems(w, list, items.value, pipe.decl, vars))
    case Template(name, argument) =>
      var v := if argument.None? then Ok(None) else EvalArgument(w, argument.value, env);
      if v.Err? then Err
      else
        var text := w.template(name, v.value);
        if text.Err? then Err else Ok(Output(text.value, env.vars))
  }

  function EvalArgument(w: World, p: Pipe, env: Env): Result<Option<Value>>
    decreases p, 1
  {
    var v := EvalPipe(w, p, env);
    if v.Err? then Err else Ok(Some(v.value))
  }

  function Scoped(env: Env, r: Result<Output>): Result<Output> {
    if r.Err? then Err else Ok(Output(r.value.text, env.vars))
  }

  function ExecItems(w: World, list: seq<Node>, items: seq<Value>, decl: seq<string>, vars: map<string, Value>)
    : Result<Output>
    decreases list, 2, |items|
  {
    if items == [] then Ok(Output("", vars))
    else
      var first := ExecList(w, list, Env(items[0], Declare(vars, decl, items[0])));
      var rest := ExecItems(w, list, items[1..], decl, vars);
      if first.Err? || rest.Err? then Err else Ok(Output(first.value.text + rest.value.text, vars))
  }

  /** A template executed for a caller: its text, or a failure. */
  function Render(w: World, nodes: seq<Node>, params: Params): Result<string> {
    var dot := Caller(params);
    var r := ExecList(w, nodes, Env(dot, map["$" := dot]));
    if r.Err? then Err else Ok(r.value.text)
  }
}
