/**
 The parser actions that turn nested `decode` blocks of an ISA description into one
 nested C `switch` statement, and what that statement does when it runs.

 Code is a sequence of the C fragments the actions paste together.  The formats that
 write the code of single instructions are outside the model: an instruction is known
 by its format and its text, and `returning` says whether its code ends in a `return`.
 */
module DecodeBlocks {

  // ----- What the grammar delivers -----

  datatype Option<+T> = None | Some(value: T)

  datatype Error = UndefinedFormat | NoActiveFormat | TwoDefaults | NoDefault

  datatype Result<+T> = Ok(value: T) | Fail(error: Error) {
    predicate IsFailure() { Fail? }
    function PropagateFailure<U>(): Result<U> requires Fail? { Fail(error) }
    function Extract(): T requires Ok? { value }
  }

  datatype Inst = Inst(format: Option<string>, text: string)
  datatype Label = Cases(values: seq<nat>) | Default
  datatype Block = Block(field: string, opt_default: Option<Inst>, stmts: Stmts)
  datatype Stmts = One(head: Stmt) | More(head: Stmt, tail: Stmts)
  datatype Stmt =
    | InstStmt(lbl: Label, inst: Inst)
    | DecodeStmt(lbl: Label, block: Block)
    | FormatStmt(name: string, body: Stmts)
    | CppStmt(text: string)

  // ----- Generated code and what it does -----

  datatype Op = Op(format: string, text: string)

  datatype Item =
    | Case(value: nat)
    | DefaultCase
    | Emit(op: Op)
    | Break
    | Switch(field: string, body: seq<Item>)
    | Directive(text: string)

  datatype GenCode = GenCode(decode: seq<Item>, hasDefault: bool)

  /** What a switch looks for among its labels. */
  datatype Key = Value(v: nat) | Otherwise

  datatype Outcome = Returned(op: Op) | FellOut

  /** The bit fields of the machine word, and which instructions' code ends in a return. */
  datatype Env = Env(fields: string -> nat, returning: Op -> bool)

  predicate IsLabel(item: Item, key: Key) {
    if key.Value? then item == Case(key.v) else item == DefaultCase
  }

  predicate HasLabel(code: seq<Item>, key: Key) {
    exists i :: 0 <= i < |code| && IsLabel(code[i], key)
  }

  /** Runs statements in order; `break` leaves the enclosing switch. */
  function Run(code: seq<Item>, env: Env): Outcome
    decreases code, 0
  {
    if code == [] then FellOut
    else match code[0]
      case Emit(op) => if env.returning(op) then Returned(op) else Run(code[1..], env)
      case Break => FellOut
      case Switch(_, _) =>
        var inner := RunSwitch(code[0], env);
        if inner.Returned? then inner else Run(code[1..], env)
      case _ => Run(code[1..], env)
  }

  /** Jumps to the first label for the key and runs on from there, past later labels. */
  function Jump(code: seq<Item>, key: Key, env: Env): Outcome
    decreases code, 0
  {
    if code == [] then FellOut
    else if IsLabel(code[0], key) then Run(code[1..], env)
    else Jump(code[1..], key, env)
  }

  function RunSwitch(item: Item, env: Env): Outcome
    requires item.Switch?
    decreases item, 1
  {
    var key := Value(env.fields(item.field));
    if HasLabel(item.body, key) then Jump(item.body, key, env)
    else Jump(item.body, Otherwise, env)
  }

  // ----- Translation, with the stacks replaced by parameters -----

  function Resolve(inst: Inst, current: Option<string>, formats: set<string>): Result<Op> {
    match inst.format
    case Some(f) => if f in formats then Ok(Op(f, inst.text)) else Fail(UndefinedFormat)
    case None => if current.Some? then Ok(Op(current.value, inst.text)) else Fail(NoActiveFormat)
  }

  function LabelItems(lbl: Label): seq<Item> {
    match lbl
    case Default => [DefaultCase]
    case Cases(values) => seq(|values|, i requires 0 <= i < |values| => Case(values[i]))
  }

  function Plus(a: GenCode, b: GenCode): GenCode {
    GenCode(a.decode + b.decode, a.hasDefault || b.hasDefault)
  }

  function DefaultCode(op: Op): GenCode {
    GenCode([DefaultCase, Emit(op), Break], false)
  }

  /** The default that a block hands down: its own, or else the inherited one. */
  function OwnDefault(b: Block, inherited: Option<Op>, current: Option<string>,
                      formats: set<string>): Result<Option<Op>> {
    if b.opt_default.None? then Ok(inherited)
    else
      var op :- Resolve(b.opt_default.value, current, formats);
      Ok(Some(op))
  }

  function GenBlock(b: Block, inherited: Option<Op>, current: Option<string>,
                    formats: set<string>): (r: Result<GenCode>)
    ensures r.Ok? ==> |r.value.decode| == 1 && r.value.decode[0].Switch?
    decreases b
  {
    var own :- OwnDefault(b, inherited, current, formats);
    var code :- GenStmts(b.stmts, own, current, formats);
    if code.hasDefault then Ok(GenCode([Switch(b.field, code.decode)], true))
    else if own.None? then Fail(NoDefault)
    else Ok(GenCode([Switch(b.field, Plus(code, DefaultCode(own.value)).decode)], false))
  }

  function GenStmts(s: Stmts, own: Option<Op>, current: Option<string>, formats: set<string>): Result<GenCode>
    decreases s
  {
    var first :- GenStmt(s.head, own, current, formats);
    if s.One? then Ok(first)
    else
      var others :- GenStmts(s.tail, own, current, formats);
      if first.hasDefault && others.hasDefault then Fail(TwoDefaults) else Ok(Plus(first, others))
  }

  function GenStmt(s: Stmt, own: Option<Op>, current: Option<string>, formats: set<string>): Result<GenCode>
    decreases s
  {
    match s
    case InstStmt(lbl, inst) =>
      var op :- Resolve(inst, current, formats);
      Ok(GenCode(LabelItems(lbl) + [Emit(op), Break], lbl.Default?))
    case DecodeStmt(lbl, block) =>
      var code :- GenBlock(block, own, current, formats);
      Ok(GenCode(LabelItems(lbl) + code.decode, lbl.Default?))
    case FormatStmt(name, body) =>
      if name in formats then GenStmts(body, own, Some(name), formats) else Fail(UndefinedFormat)
    case CppStmt(text) => Ok(GenCode([Directive(text)], false))
  }

  // ----- Direct decoding: no code, no stacks -----

  predicate Selects(lbl: Label, key: Key) {
    match key
    case Value(v) => lbl.Cases? && v in lbl.values
    case Otherwise => lbl.Default?
  }

  /** The first statement for the key, with the format in force there. */
  function Pick(s: Stmts, key: Key, current: Option<string>): Option<(Stmt, Option<string>)>
    decreases s
  {
    var first := PickStmt(s.head, key, current);
    if first.Some? || s.One? then first else Pick(s.tail, key, current)
  }

  function PickStmt(s: Stmt, key: Key, current: Option<string>): Option<(Stmt, Option<string>)>
    decreases s
  {
    match s
    case InstStmt(lbl, _) => if Selects(lbl, key) then Some((s, current)) else None
    case DecodeStmt(lbl, _) => if Selects(lbl, key) then Some((s, current)) else None
    case FormatStmt(name, body) => Pick(body, key, Some(name))
    case CppStmt(_) => None
  }

  lemma {:induction false} PickedInside(s: Stmts, key: Key, current: Option<string>)
    ensures Pick(s, key, current).Some? ==>
              var t := Pick(s, key, current).value.0;
              t < s && !t.FormatStmt? && !t.CppStmt?
    decreases s, 1
  {
    PickedStmtInside(s.head, key, current);
    if s.More? { PickedInside(s.tail, key, current); }
  }

  lemma {:induction false} PickedStmtInside(s: Stmt, key: Key, current: Option<string>)
    ensures PickStmt(s, key, current).Some? ==>
              var t := PickStmt(s, key, current).value.0;
              (t == s || t < s) && !t.FormatStmt? && !t.CppStmt?
    decreases s, 0
  {
    if s.FormatStmt? { PickedInside(s.body, key, Some(s.name)); }
  }

  /**
   The instruction for a machine word: the matching case, else the explicit default
   statement, else the default of the nearest enclosing block that names one.
   */
  function Decode(b: Block, env: Env, inherited: Option<Op>, current: Option<string>, formats: set<string>): Option<Op>
    decreases b
  {
    var own := OwnDefault(b, inherited, current, formats);
    var picked := PickFor(b.stmts, env.fields(b.field), current);
    if own.Fail? then None
    else match picked
      case None => own.value
      case Some((InstStmt(_, inst), format)) =>
        var op := Resolve(inst, format, formats);
        if op.Ok? then Some(op.value) else None
      case Some((DecodeStmt(_, block), format)) =>
        PickForInside(b.stmts, env.fields(b.field), current);
        Decode(block, env, own.value, format, formats)
      case Some(_) => None
  }

  function PickFor(s: Stmts, v: nat, current: Option<string>): Option<(Stmt, Option<string>)> {
    var exact := Pick(s, Value(v), current);
    if exact.Some? then exact else Pick(s, Otherwise, current)
  }

  lemma PickForInside(s: Stmts, v: nat, current: Option<string>)
    ensures PickFor(s, v, current).Some? ==>
              var t := PickFor(s, v, current).value.0;
              t < s && !t.FormatStmt? && !t.CppStmt?
  {
    PickedInside(s, Value(v), current);
    PickedInside(s, Otherwise, current);
  }

  // ----- How jumps and labels behave under concatenation -----

  lemma HasLabelConcat(a: seq<Item>, b: seq<Item>, key: Key)
    ensures HasLabel(a + b, key) <==> HasLabel(a, key) || HasLabel(b, key)
  {
    if HasLabel(a, key) {
      var i :| 0 <= i < |a| && IsLabel(a[i], key);
      assert IsLabel((a + b)[i], key);
    }
    if HasLabel(b, key) {
      var i :| 0 <= i < |b| && IsLabel(b[i], key);
      assert IsLabel((a + b)[|a| + i], key);
    }
  }

  lemma {:induction false} JumpSkips(a: seq<Item>, b: seq<Item>, key: Key, env: Env)
    requires !HasLabel(a, key)
    ensures Jump(a + b, key, env) == Jump(b, key, env)
    decreases |a|
  {
    if a == [] {
      assert a + b == b;
    } else {
      assert !IsLabel(a[0], key);
      assert (a + b)[1..] == a[1..] + b;
      JumpSkips(a[1..], b, key, env);
    }
  }

  lemma {:induction false} RunPassesLabels(labels: seq<Item>, rest: seq<Item>, env: Env)
    requires forall i :: 0 <= i < |labels| ==> labels[i].Case? || labels[i].DefaultCase?
    ensures Run(labels + rest, env) == Run(rest, env)
    decreases |labels|
  {
    if labels == [] {
      assert labels + rest == rest;
    } else {
      assert (labels + rest)[1..] == labels[1..] + rest;
      RunPassesLabels(labels[1..], rest, env);
    }
  }

  lemma {:induction false} JumpIntoLabels(labels: seq<Item>, rest: seq<Item>, key: Key, env: Env)
    requires forall i :: 0 <= i < |labels| ==> labels[i].Case? || labels[i].DefaultCase?
    requires HasLabel(labels, key)
    ensures Jump(labels + rest, key, env) == Run(rest, env)
    decreases |labels|
  {
    assert (labels + rest)[1..] == labels[1..] + rest;
    if IsLabel(labels[0], key) {
      RunPassesLabels(labels[1..], rest, env);
    } else {
      var i :| 0 <= i < |labels| && IsLabel(labels[i], key);
      assert IsLabel(labels[1..][i - 1], key);
      JumpIntoLabels(labels[1..], rest, key, env);
    }
  }

  lemma LabelsSelect(lbl: Label, key: Key)
    ensures HasLabel(LabelItems(lbl), key) <==> Selects(lbl, key)
    ensures lbl.Cases? ==> forall v: nat :: HasLabel(LabelItems(lbl), Value(v)) <==> v in lbl.values
    ensures HasLabel(LabelItems(lbl), Otherwise) <==> lbl.Default?
    ensures forall i :: 0 <= i < |LabelItems(lbl)| ==> LabelItems(lbl)[i].Case? || LabelItems(lbl)[i].DefaultCase?
  {
    var items := LabelItems(lbl);
    if lbl.Default? {
      assert IsLabel(items[0], Otherwise);
    } else {
      forall v: nat ensures HasLabel(items, Value(v)) <==> v in lbl.values {
        if v in lbl.values {
          var i :| 0 <= i < |lbl.values| && lbl.values[i] == v;
          assert IsLabel(items[i], Value(v));
        }
      }
    }
  }

  // ----- The labels of the generated code are those of the statements -----

  lemma {:induction false} StmtsLabels(s: Stmts, own: Option<Op>, current: Option<string>, formats: set<string>,
                                       key: Key)
    ensures var r := GenStmts(s, own, current, formats);
            r.Ok? ==> (HasLabel(r.value.decode, key) <==> Pick(s, key, current).Some?)
                      && (r.value.hasDefault <==> Pick(s, Otherwise, current).Some?)
    decreases s, 1
  {
    var r := GenStmts(s, own, current, formats);
    if r.Ok? {
      StmtLabels(s.head, own, current, formats, key);
      if s.More? {
        StmtsLabels(s.tail, own, current, formats, key);
        HasLabelConcat(GenStmt(s.head, own, current, formats).value.decode,
                       GenStmts(s.tail, own, current, formats).value.decode, key);
      }
    }
  }

  lemma {:induction false} StmtLabels(s: Stmt, own: Option<Op>, current: Option<string>, formats: set<string>, key: Key)
    ensures var r := GenStmt(s, own, current, formats);
            r.Ok? ==> (HasLabel(r.value.decode, key) <==> PickStmt(s, key, current).Some?)
                      && (r.value.hasDefault <==> PickStmt(s, Otherwise, current).Some?)
    decreases s, 0
  {
    match s
    case InstStmt(lbl, inst) =>
      if GenStmt(s, own, current, formats).Ok? {
        LabelsSelect(lbl, key);
        HasLabelConcat(LabelItems(lbl), [Emit(Resolve(inst, current, formats).value), Break], key);
      }
    case DecodeStmt(lbl, block) =>
      if GenStmt(s, own, current, formats).Ok? {
        LabelsSelect(lbl, key);
        HasLabelConcat(LabelItems(lbl), GenBlock(block, own, current, formats).value.decode, key);
      }
    case FormatStmt(name, body) => StmtsLabels(body, own, Some(name), formats, key);
    case CppStmt(_) =>
  }

  // ----- The generated switch decodes -----

  /** What a picked statement decodes to. */
  function Target(t: Stmt, format: Option<string>, own: Option<Op>, env: Env, formats: set<string>): Option<Op> {
    match t
    case InstStmt(_, inst) =>
      var op := Resolve(inst, format, formats);
      if op.Ok? then Some(op.value) else None
    case DecodeStmt(_, block) => Decode(block, env, own, format, formats)
    case _ => None
  }

  lemma DecodeIsTarget(b: Block, env: Env, inherited: Option<Op>, current: Option<string>, formats: set<string>)
    requires OwnDefault(b, inherited, current, formats).Ok?
    ensures var own := OwnDefault(b, inherited, current, formats).value;
            var picked := PickFor(b.stmts, env.fields(b.field), current);
            Decode(b, env, inherited, current, formats)
            == if picked.None? then own else Target(picked.value.0, picked.value.1, own, env, formats)
  {
  }

  lemma {:induction false} BlockDecodes(b: Block, env: Env, inherited: Option<Op>, current: Option<string>,
                                        formats: set<string>)
    requires GenBlock(b, inherited, current, formats).Ok?
    ensures var op := Decode(b, env, inherited, current, formats);
            && op.Some?
            && (env.returning(op.value) ==>
                  RunSwitch(GenBlock(b, inherited, current, formats).value.decode[0], env) == Returned(op.value))
    decreases b, 2
  {
    var own := OwnDefault(b, inherited, current, formats).value;
    var code := GenStmts(b.stmts, own, current, formats).value;
    var body := GenBlock(b, inherited, current, formats).value.decode[0].body;
    var tail := if code.hasDefault then [] else DefaultCode(own.value).decode;
    assert body == code.decode + tail;
    var exact := Value(env.fields(b.field));
    var key := if Pick(b.stmts, exact, current).Some? then exact else Otherwise;
    DecodeIsTarget(b, env, inherited, current, formats);
    StmtsLabels(b.stmts, own, current, formats, exact);
    StmtsLabels(b.stmts, own, current, formats, Otherwise);
    HasLabelConcat(code.decode, tail, exact);
    assert HasLabel(body, exact) <==> key == exact;
    if Pick(b.stmts, key, current).Some? {
      StmtsDecode(b.stmts, key, own, env, current, formats, tail);
    } else {
      JumpSkips(code.decode, tail, key, env);
      assert tail[1..] == [Emit(own.value), Break];
    }
  }

  lemma {:induction false} StmtsDecode(s: Stmts, key: Key, own: Option<Op>, env: Env, current: Option<string>,
                                       formats: set<string>, rest: seq<Item>)
    requires GenStmts(s, own, current, formats).Ok? && Pick(s, key, current).Some?
    ensures var (t, format) := Pick(s, key, current).value;
            var op := Target(t, format, own, env, formats);
            && op.Some?
            && (env.returning(op.value) ==>
                  Jump(GenStmts(s, own, current, formats).value.decode + rest, key, env) == Returned(op.value))
    decreases s, 1
  {
    var first := GenStmt(s.head, own, current, formats).value.decode;
    if s.One? {
      StmtDecodes(s.head, key, own, env, current, formats, rest);
    } else {
      var others := GenStmts(s.tail, own, current, formats).value.decode;
      assert first + others + rest == first + (others + rest);
      if PickStmt(s.head, key, current).Some? {
        StmtDecodes(s.head, key, own, env, current, formats, others + rest);
      } else {
        StmtLabels(s.head, own, current, formats, key);
        JumpSkips(first, others + rest, key, env);
        StmtsDecode(s.tail, key, own, env, current, formats, rest);
      }
    }
  }

  lemma {:induction false} StmtDecodes(s: Stmt, key: Key, own: Option<Op>, env: Env, current: Option<string>,
                                       formats: set<string>, rest: seq<Item>)
    requires GenStmt(s, own, current, formats).Ok? && PickStmt(s, key, current).Some?
    ensures var (t, format) := PickStmt(s, key, current).value;
            var op := Target(t, format, own, env, formats);
            && op.Some?
            && (env.returning(op.value) ==>
                  Jump(GenStmt(s, own, current, formats).value.decode + rest, key, env) == Returned(op.value))
    decreases s, 0
  {
    match s
    case InstStmt(lbl, inst) =>
      var code := [Emit(Resolve(inst, current, formats).value), Break];
      LabelsSelect(lbl, key);
      assert LabelItems(lbl) + code + rest == LabelItems(lbl) + (code + rest);
      JumpIntoLabels(LabelItems(lbl), code + rest, key, env);
    case DecodeStmt(lbl, block) =>
      var code := GenBlock(block, own, current, formats).value.decode;
      LabelsSelect(lbl, key);
      BlockDecodes(block, env, own, current, formats);
      assert LabelItems(lbl) + code + rest == LabelItems(lbl) + (code + rest);
      JumpIntoLabels(LabelItems(lbl), code + rest, key, env);
    case FormatStmt(name, body) => StmtsDecode(body, key, own, env, Some(name), formats, rest);
    case CppStmt(_) =>
  }

  /** Only code that returns can be what a run returns. */
  lemma {:induction false} RunReturnsReturning(code: seq<Item>, env: Env)
    ensures Run(code, env).Returned? ==> env.returning(Run(code, env).op)
    decreases code, 0
  {
    if code != [] {
      RunReturnsReturning(code[1..], env);
      if code[0].Switch? { SwitchReturnsReturning(code[0], env); }
    }
  }

  lemma {:induction false} JumpReturnsReturning(code: seq<Item>, key: Key, env: Env)
    ensures Jump(code, key, env).Returned? ==> env.returning(Jump(code, key, env).op)
    decreases code, 0
  {
    if code != [] {
      RunReturnsReturning(code[1..], env);
      JumpReturnsReturning(code[1..], key, env);
    }
  }

  lemma {:induction false} SwitchReturnsReturning(item: Item, env: Env)
    requires item.Switch?
    ensures RunSwitch(item, env).Returned? ==> env.returning(RunSwitch(item, env).op)
    decreases item, 1
  {
    JumpReturnsReturning(item.body, Value(env.fields(item.field)), env);
    JumpReturnsReturning(item.body, Otherwise, env);
  }

  /**
   Main theorem.  A translated block always has an instruction for every machine word,
   and the generated switch returns it exactly when that instruction's code returns.
   */
  lemma SwitchReturnsDecoded(b: Block, env: Env, inherited: Option<Op>, current: Option<string>, formats: set<string>)
    requires GenBlock(b, inherited, current, formats).Ok?
    ensures var op := Decode(b, env, inherited, current, formats);
            && op.Some?
            && (RunSwitch(GenBlock(b, inherited, current, formats).value.decode[0], env) == Returned(op.value)
                <==> env.returning(op.value))
  {
    BlockDecodes(b, env, inherited, current, formats);
    SwitchReturnsReturning(GenBlock(b, inherited, current, formats).value.decode[0], env);
  }

  // ----- Which default and which format win -----

  /** Some statement of the block lists v; nested decodes have values of their own. */
  predicate ListsValue(s: Stmts, v: nat)
    decreases s
  {
    StmtLists(s.head, v) || (s.More? && ListsValue(s.tail, v))
  }

  predicate StmtLists(s: Stmt, v: nat)
    decreases s
  {
    match s
    case InstStmt(lbl, _) => lbl.Cases? && v in lbl.values
    case DecodeStmt(lbl, _) => lbl.Cases? && v in lbl.values
    case FormatStmt(_, body) => ListsValue(body, v)
    case CppStmt(_) => false
  }

  /** A picked statement lists the value, or is the default statement if none does. */
  lemma {:induction false} PickedLists(s: Stmts, v: nat, current: Option<string>)
    ensures Pick(s, Value(v), current).Some? <==> ListsValue(s, v)
    ensures Pick(s, Otherwise, current).Some? <==> DefaultCount(s) > 0
    decreases s, 1
  {
    PickedStmtLists(s.head, v, current);
    if s.More? { PickedLists(s.tail, v, current); }
  }

  lemma {:induction false} PickedStmtLists(s: Stmt, v: nat, current: Option<string>)
    ensures PickStmt(s, Value(v), current).Some? <==> StmtLists(s, v)
    ensures PickStmt(s, Otherwise, current).Some? <==> DefaultCountOf(s) > 0
    decreases s, 0
  {
    if s.FormatStmt? { PickedLists(s.body, v, Some(s.name)); }
  }

  lemma {:induction false} PickedHas(s: Stmts, key: Key, current: Option<string>)
    ensures Pick(s, key, current).Some? ==>
      var t := Pick(s, key, current).value.0;
      (t.InstStmt? || t.DecodeStmt?) && (if key.Value? then t.lbl.Cases? && key.v in t.lbl.values else t.lbl.Default?)
    decreases s, 1
  {
    PickedStmtHas(s.head, key, current);
    if s.More? { PickedHas(s.tail, key, current); }
  }

  lemma {:induction false} PickedStmtHas(s: Stmt, key: Key, current: Option<string>)
    ensures PickStmt(s, key, current).Some? ==>
      var t := PickStmt(s, key, current).value.0;
      (t.InstStmt? || t.DecodeStmt?) && (if key.Value? then t.lbl.Cases? && key.v in t.lbl.values else t.lbl.Default?)
    decreases s, 0
  {
    if s.FormatStmt? { PickedHas(s.body, key, Some(s.name)); }
  }

  /** The statement for a value: one that lists it, else the default statement, else none. */
  lemma PicksRight(s: Stmts, v: nat, current: Option<string>)
    ensures PickFor(s, v, current).None? <==> !ListsValue(s, v) && DefaultCount(s) == 0
    ensures PickFor(s, v, current).Some? ==>
      var t := PickFor(s, v, current).value.0;
      && (t.InstStmt? || t.DecodeStmt?)
      && (if ListsValue(s, v) then t.lbl.Cases? && v in t.lbl.values else t.lbl.Default?)
  {
    PickedLists(s, v, current);
    PickedHas(s, Value(v), current);
    PickedHas(s, Otherwise, current);
  }

  /** A block that names a default does not depend on the one it inherits. */
  lemma OwnDefaultShadows(b: Block, i: Option<Op>, j: Option<Op>, current: Option<string>, formats: set<string>)
    requires b.opt_default.Some?
    ensures GenBlock(b, i, current, formats) == GenBlock(b, j, current, formats)
  {
  }

  /** What a format block holds does not depend on the format around it. */
  lemma FormatShadows(name: string, body: Stmts, own: Option<Op>, i: Option<string>, j: Option<string>,
                      formats: set<string>)
    ensures GenStmt(FormatStmt(name, body), own, i, formats) == GenStmt(FormatStmt(name, body), own, j, formats)
  {
  }

  /** An instruction without a format of its own directly inside takes the block's. */
  lemma FormatRules(name: string, lbl: Label, text: string, own: Option<Op>, outer: Option<string>,
                    formats: set<string>)
    requires name in formats
    ensures GenStmt(FormatStmt(name, One(InstStmt(lbl, Inst(None, text)))), own, outer, formats)
            == Ok(GenCode(LabelItems(lbl) + [Emit(Op(name, text)), Break], lbl.Default?))
  {
    var inner := InstStmt(lbl, Inst(None, text));
    assert GenStmts(One(inner), own, Some(name), formats) == GenStmt(inner, own, Some(name), formats);
  }

  /** A block on the way to the instruction of a word, with the format in force around it. */
  datatype Level = Level(block: Block, format: Option<string>)

  /** The blocks that decoding a word goes through, outermost first. */
  function Route(b: Block, env: Env, current: Option<string>): (r: seq<Level>)
    ensures r != [] && r[0] == Level(b, current)
    decreases b
  {
    match PickFor(b.stmts, env.fields(b.field), current)
    case Some((DecodeStmt(_, block), format)) =>
      PickForInside(b.stmts, env.fields(b.field), current);
      [Level(b, current)] + Route(block, env, format)
    case _ => [Level(b, current)]
  }

  /** From level n inwards no block names a default. */
  predicate NoneFrom(route: seq<Level>, n: nat) {
    forall i :: n <= i < |route| ==> route[i].block.opt_default.None?
  }

  /** Level j names a default and none inside it does. */
  predicate Nearest(route: seq<Level>, j: nat) {
    j < |route| && route[j].block.opt_default.Some? && NoneFrom(route, j + 1)
  }

  lemma NoneFurtherIn(level: Level, rest: seq<Level>, n: nat)
    ensures NoneFrom([level] + rest, n + 1) <==> NoneFrom(rest, n)
  {
    var route := [level] + rest;
    assert forall i :: 0 <= i < |rest| ==> rest[i] == route[i + 1];
    if NoneFrom(rest, n) {
      forall i | n + 1 <= i < |route| ensures route[i].block.opt_default.None? { assert route[i] == rest[i - 1]; }
    }
  }

  /** The instruction has the text written and the format written or, if none is, the one in force. */
  predicate IsWritten(op: Op, inst: Inst, current: Option<string>) {
    op.text == inst.text && (if inst.format.Some? then inst.format.value == op.format else current == Some(op.format))
  }

  /** The instruction is the nearest default on the route, or the inherited one if there is none. */
  ghost predicate FromNearest(route: seq<Level>, inherited: Option<Op>, op: Op) {
    && (forall j: nat :: Nearest(route, j) ==> IsWritten(op, route[j].block.opt_default.value, route[j].format))
    && (NoneFrom(route, 0) ==> inherited == Some(op))
  }

  /** What the outermost block hands down to the rest of the route. */
  lemma NearestFurtherIn(level: Level, rest: seq<Level>, inherited: Option<Op>, own: Option<Op>, op: Op)
    requires FromNearest(rest, own, op)
    requires level.block.opt_default.None? ==> own == inherited
    requires level.block.opt_default.Some? ==>
      own.Some? && IsWritten(own.value, level.block.opt_default.value, level.format)
    ensures FromNearest([level] + rest, inherited, op)
  {
    var route := [level] + rest;
    hide IsWritten;
    assert route[0] == level;
    NoneFurtherIn(level, rest, 0);
    assert NoneFrom(route, 0) ==> NoneFrom(route, 1) && level.block.opt_default.None?;
    forall j: nat | Nearest(route, j) ensures IsWritten(op, route[j].block.opt_default.value, route[j].format) {
      if j > 0 {
        NoneFurtherIn(level, rest, j);
        assert rest[j - 1] == route[j] && Nearest(rest, j - 1);
      }
    }
  }

  lemma OwnIsWritten(b: Block, inherited: Option<Op>, current: Option<string>, formats: set<string>)
    requires OwnDefault(b, inherited, current, formats).Ok?
    ensures var own := OwnDefault(b, inherited, current, formats).value;
      && (b.opt_default.None? ==> own == inherited)
      && (b.opt_default.Some? ==> own.Some? && IsWritten(own.value, b.opt_default.value, current))
  {
  }

  lemma {:induction false} UnmatchedDecodes(b: Block, env: Env, inherited: Option<Op>, current: Option<string>,
                                            formats: set<string>)
    requires GenBlock(b, inherited, current, formats).Ok?
    requires var last := Route(b, env, current)[|Route(b, env, current)| - 1].block;
      !ListsValue(last.stmts, env.fields(last.field)) && DefaultCount(last.stmts) == 0
    ensures Decode(b, env, inherited, current, formats).Some?
    ensures FromNearest(Route(b, env, current), inherited, Decode(b, env, inherited, current, formats).value)
    decreases b
  {
    var v := env.fields(b.field);
    BlockDecodes(b, env, inherited, current, formats);
    PicksRight(b.stmts, v, current);
    PickForInside(b.stmts, v, current);
    OwnIsWritten(b, inherited, current, formats);
    var own := OwnDefault(b, inherited, current, formats).value;
    var op := Decode(b, env, inherited, current, formats).value;
    hide FromNearest, IsWritten, PickFor, OwnDefault, ListsValue, DefaultCount;
    match PickFor(b.stmts, v, current)
    case Some((DecodeStmt(_, block), format)) =>
      PickedTranslates(b.stmts, v, own, current, formats);
      var rest := Route(block, env, format);
      UnmatchedDecodes(block, env, own, format, formats);
      NearestFurtherIn(Level(b, current), rest, inherited, own, op);
    case _ =>
      LastLevel(Level(b, current), inherited, op);
  }

  lemma LastLevel(level: Level, inherited: Option<Op>, op: Op)
    requires level.block.opt_default.None? ==> inherited == Some(op)
    requires level.block.opt_default.Some? ==> IsWritten(op, level.block.opt_default.value, level.format)
    ensures FromNearest([level], inherited, op)
  {
    assert [level][0] == level;
  }

  /** A nested block that is picked has been translated under the default and format in force there. */
  lemma PickedTranslates(s: Stmts, v: nat, own: Option<Op>, current: Option<string>, formats: set<string>)
    requires GenStmts(s, own, current, formats).Ok?
    ensures PickFor(s, v, current).Some? ==>
      var (t, format) := PickFor(s, v, current).value;
      t.DecodeStmt? ==> GenBlock(t.block, own, format, formats).Ok?
  {
    KeyTranslates(s, Value(v), own, current, formats);
    KeyTranslates(s, Otherwise, own, current, formats);
  }

  lemma {:induction false} KeyTranslates(s: Stmts, key: Key, own: Option<Op>, current: Option<string>,
                                         formats: set<string>)
    requires GenStmts(s, own, current, formats).Ok?
    ensures Pick(s, key, current).Some? ==>
      var (t, format) := Pick(s, key, current).value;
      && (t.DecodeStmt? ==> GenBlock(t.block, own, format, formats).Ok?)
      && (t.InstStmt? ==> Resolve(t.inst, format, formats).Ok?)
    decreases s, 1
  {
    KeyTranslatesStmt(s.head, key, own, current, formats);
    if s.More? { KeyTranslates(s.tail, key, own, current, formats); }
  }

  lemma {:induction false} KeyTranslatesStmt(s: Stmt, key: Key, own: Option<Op>, current: Option<string>,
                                             formats: set<string>)
    requires GenStmt(s, own, current, formats).Ok?
    ensures PickStmt(s, key, current).Some? ==>
      var (t, format) := PickStmt(s, key, current).value;
      && (t.DecodeStmt? ==> GenBlock(t.block, own, format, formats).Ok?)
      && (t.InstStmt? ==> Resolve(t.inst, format, formats).Ok?)
    decreases s, 0
  {
    if s.FormatStmt? { KeyTranslates(s.body, key, own, Some(s.name), formats); }
  }

  /**
   The nearest default wins.  If no statement of the innermost block reached is for the word, the
   switch returns the instruction written as default in the innermost block on the way that names
   one, in the format in force there, or the inherited instruction if no block names one.
   */
  lemma NearestDefaultWins(b: Block, env: Env, inherited: Option<Op>, current: Option<string>, formats: set<string>,
                           op: Op)
    requires GenBlock(b, inherited, current, formats).Ok? && env.returning(op)
    requires var last := Route(b, env, current)[|Route(b, env, current)| - 1].block;
      !ListsValue(last.stmts, env.fields(last.field)) && DefaultCount(last.stmts) == 0
    requires var route := Route(b, env, current);
      || (exists j: nat :: Nearest(route, j) && IsWritten(op, route[j].block.opt_default.value, route[j].format))
      || (inherited == Some(op) && NoneFrom(route, 0))
    ensures RunSwitch(GenBlock(b, inherited, current, formats).value.decode[0], env) == Returned(op)
  {
    UnmatchedDecodes(b, env, inherited, current, formats);
    BlockDecodes(b, env, inherited, current, formats);
    assert Decode(b, env, inherited, current, formats) == Some(op);
  }

  /** Otherwise the statement picked there is an instruction, and it is what the word decodes to. */
  lemma {:induction false} MatchedDecodes(b: Block, env: Env, inherited: Option<Op>, current: Option<string>,
                                          formats: set<string>)
    requires GenBlock(b, inherited, current, formats).Ok?
    ensures var last := Route(b, env, current)[|Route(b, env, current)| - 1];
      var picked := PickFor(last.block.stmts, env.fields(last.block.field), last.format);
      picked.Some? ==>
        && picked.value.0.InstStmt? && Decode(b, env, inherited, current, formats).Some?
        && IsWritten(Decode(b, env, inherited, current, formats).value, picked.value.0.inst, picked.value.1)
    decreases b
  {
    var v := env.fields(b.field);
    BlockDecodes(b, env, inherited, current, formats);
    PicksRight(b.stmts, v, current);
    PickForInside(b.stmts, v, current);
    var own := OwnDefault(b, inherited, current, formats).value;
    match PickFor(b.stmts, v, current)
    case Some((DecodeStmt(_, block), format)) =>
      PickedTranslates(b.stmts, v, own, current, formats);
      MatchedDecodes(block, env, own, format, formats);
    case _ =>
  }

  /** The inner of two defaults: a word that no case is for takes B, not A. */
  lemma InnerDefaultWins(env: Env)
    requires env.fields("OPCODE") == 1 && env.fields("FUNC") != 7
    requires env.returning(Op("F", "B"))
    ensures GenBlock(TWO_DEFAULTS, None, Some("F"), {"F"}).Ok?
    ensures RunSwitch(GenBlock(TWO_DEFAULTS, None, Some("F"), {"F"}).value.decode[0], env) == Returned(Op("F", "B"))
  {
    hide RunSwitch, GenBlock, Route;
    TwoDefaultsAccepted();
    TwoDefaultsRoute(env);
    var current := Some("F");
    var route := [Level(TWO_DEFAULTS, current), Level(B_INSIDE, current)];
    assert Nearest(route, 1) && IsWritten(Op("F", "B"), route[1].block.opt_default.value, route[1].format);
    NearestDefaultWins(TWO_DEFAULTS, env, None, current, {"F"}, Op("F", "B"));
  }

  lemma TwoDefaultsAccepted()
    ensures GenBlock(TWO_DEFAULTS, None, Some("F"), {"F"}).Ok?
  {
    hide GenBlock;
    assert StmtOk(B_INSIDE.stmts.head, true, Some("F"), {"F"});
    assert BlockOk(B_INSIDE, true, Some("F"), {"F"});
    AcceptsExactly(TWO_DEFAULTS, None, Some("F"), {"F"});
  }

  lemma TwoDefaultsRoute(env: Env)
    requires env.fields("OPCODE") == 1 && env.fields("FUNC") != 7
    ensures Route(TWO_DEFAULTS, env, Some("F")) == [Level(TWO_DEFAULTS, Some("F")), Level(B_INSIDE, Some("F"))]
    ensures !ListsValue(B_INSIDE.stmts, env.fields("FUNC")) && DefaultCount(B_INSIDE.stmts) == 0
  {
    var current := Some("F");
    PicksRight(B_INSIDE.stmts, env.fields("FUNC"), current);
    assert PickFor(TWO_DEFAULTS.stmts, 1, current) == Some((TWO_DEFAULTS.stmts.head, current));
    hide PickFor;
    assert Route(B_INSIDE, env, current) == [Level(B_INSIDE, current)];
  }

  const B_INSIDE: Block := Block("FUNC", Some(Inst(None, "B")), One(InstStmt(Cases([7]), Inst(None, "inner"))))
  const TWO_DEFAULTS: Block := Block("OPCODE", Some(Inst(None, "A")), One(DecodeStmt(Cases([1]), B_INSIDE)))

  // ----- Which descriptions are accepted -----

  predicate InstOk(inst: Inst, current: Option<string>, formats: set<string>) {
    if inst.format.Some? then inst.format.value in formats else current.Some?
  }

  /** Default labels of a block, counting through format blocks but not into nested decodes. */
  function DefaultCount(s: Stmts): nat
    decreases s
  {
    DefaultCountOf(s.head) + if s.One? then 0 else DefaultCount(s.tail)
  }

  function DefaultCountOf(s: Stmt): nat
    decreases s
  {
    match s
    case InstStmt(lbl, _) => if lbl.Default? then 1 else 0
    case DecodeStmt(lbl, _) => if lbl.Default? then 1 else 0
    case FormatStmt(_, body) => DefaultCount(body)
    case CppStmt(_) => 0
  }

  /**
   Every instruction and format block names a known format, every block has at most one
   default statement, and a block without one has a default of its own or inherits one.
   */
  predicate BlockOk(b: Block, inherits: bool, current: Option<string>, formats: set<string>)
    decreases b
  {
    var own := inherits || b.opt_default.Some?;
    && (b.opt_default.Some? ==> InstOk(b.opt_default.value, current, formats))
    && StmtsOk(b.stmts, own, current, formats)
    && DefaultCount(b.stmts) <= 1
    && (DefaultCount(b.stmts) == 1 || own)
  }

  predicate StmtsOk(s: Stmts, own: bool, current: Option<string>, formats: set<string>)
    decreases s
  {
    StmtOk(s.head, own, current, formats) && (s.More? ==> StmtsOk(s.tail, own, current, formats))
  }

  predicate StmtOk(s: Stmt, own: bool, current: Option<string>, formats: set<string>)
    decreases s
  {
    match s
    case InstStmt(_, inst) => InstOk(inst, current, formats)
    case DecodeStmt(_, block) => BlockOk(block, own, current, formats)
    case FormatStmt(name, body) => name in formats && StmtsOk(body, own, Some(name), formats)
    case CppStmt(_) => true
  }

  /** Translation succeeds on exactly the well-formed descriptions. */
  lemma {:induction false} AcceptsExactly(b: Block, inherited: Option<Op>, current: Option<string>,
                                          formats: set<string>)
    ensures GenBlock(b, inherited, current, formats).Ok? <==> BlockOk(b, inherited.Some?, current, formats)
    decreases b, 2
  {
    var own := OwnDefault(b, inherited, current, formats);
    if own.Ok? { AcceptsStmts(b.stmts, own.value, current, formats); }
  }

  lemma {:induction false} AcceptsStmts(s: Stmts, own: Option<Op>, current: Option<string>, formats: set<string>)
    ensures var r := GenStmts(s, own, current, formats);
            && (r.Ok? <==> StmtsOk(s, own.Some?, current, formats) && DefaultCount(s) <= 1)
            && (r.Ok? ==> r.value.hasDefault == (DefaultCount(s) == 1))
    decreases s, 1
  {
    AcceptsStmt(s.head, own, current, formats);
    if s.More? { AcceptsStmts(s.tail, own, current, formats); }
  }

  lemma {:induction false} AcceptsStmt(s: Stmt, own: Option<Op>, current: Option<string>, formats: set<string>)
    ensures var r := GenStmt(s, own, current, formats);
            && (r.Ok? <==> StmtOk(s, own.Some?, current, formats) && DefaultCountOf(s) <= 1)
            && (r.Ok? ==> r.value.hasDefault == (DefaultCountOf(s) == 1))
    decreases s, 0
  {
    match s
    case DecodeStmt(_, block) => AcceptsExactly(block, own, current, formats);
    case FormatStmt(name, body) => AcceptsStmts(body, own, Some(name), formats);
    case _ =>
  }

  /**
   Why returning code matters: a nested decode ends without a `break`, so when the inner
   instruction does not return, control falls into the next case of the outer switch.
   */
  lemma FallThroughIntoNextCase()
    ensures GenBlock(OUTER, None, Some("F"), {"F"}).Ok?
    ensures Decode(OUTER, INNER_FALLS, None, Some("F"), {"F"}) == Some(Op("F", "inner"))
    ensures RunSwitch(GenBlock(OUTER, None, Some("F"), {"F"}).value.decode[0], INNER_FALLS) == Returned(Op("F", "next"))
  {
    hide RunSwitch, GenBlock;
    OuterCode();
    OuterRuns();
  }

  lemma OuterCode()
    ensures GenBlock(OUTER, None, Some("F"), {"F"}) == Ok(GenCode([OuterSwitch()], false))
  {
    var own := Some(Op("F", "unknown"));
    OneCase(7, "inner", own);
    OneCase(2, "next", own);
    assert GenBlock(INNER, own, Some("F"), {"F"}) == Ok(GenCode([InnerSwitch()], false));
    assert LabelItems(Cases([1])) + [InnerSwitch()] == [Case(1), InnerSwitch()];
  }

  lemma InnerRuns()
    ensures RunSwitch(InnerSwitch(), INNER_FALLS) == FellOut
  {
    var body := InnerSwitch().body;
    assert IsLabel(body[0], Value(7));
    assert body[1..] == [Emit(Op("F", "inner")), Break] + UNKNOWN;
    assert body[1..][1..] == [Break] + UNKNOWN;
  }

  lemma OuterRuns()
    ensures RunSwitch(OuterSwitch(), INNER_FALLS) == Returned(Op("F", "next"))
  {
    InnerRuns();
    var body := OuterSwitch().body;
    assert IsLabel(body[0], Value(1));
    assert body[1..] == [InnerSwitch()] + (CaseOf(2, "next") + UNKNOWN);
    assert body[1..][1..] == CaseOf(2, "next") + UNKNOWN;
    assert body[1..][1..][1..] == [Emit(Op("F", "next")), Break] + UNKNOWN;
  }

  const UNKNOWN: seq<Item> := [DefaultCase, Emit(Op("F", "unknown")), Break]

  function InnerSwitch(): Item {
    Switch("FUNC", CaseOf(7, "inner") + UNKNOWN)
  }

  function OuterSwitch(): Item {
    Switch("OPCODE", [Case(1), InnerSwitch()] + CaseOf(2, "next") + UNKNOWN)
  }

  const INNER: Block := Block("FUNC", None, One(InstStmt(Cases([7]), Inst(None, "inner"))))
  const OUTER: Block := Block("OPCODE", Some(Inst(None, "unknown")),
                              More(DecodeStmt(Cases([1]), INNER), One(InstStmt(Cases([2]), Inst(None, "next")))))
  const INNER_FALLS: Env := Env((f: string) => if f == "OPCODE" then 1 else 7, (op: Op) => op.text != "inner")

  function CaseOf(v: nat, text: string): seq<Item> {
    [Case(v), Emit(Op("F", text)), Break]
  }

  lemma OneCase(v: nat, text: string, own: Option<Op>)
    ensures GenStmt(InstStmt(Cases([v]), Inst(None, text)), own, Some("F"), {"F"})
            == Ok(GenCode(CaseOf(v, text), false))
  {
    assert LabelItems(Cases([v])) == [Case(v)];
    assert [Case(v)] + [Emit(Op("F", text)), Break] == CaseOf(v, text);
  }

  // ----- The parser, with its stacks -----

  function Top<T>(stack: seq<T>): T
    requires stack != []
  {
    stack[|stack| - 1]
  }

  function CodeOf(op: Option<Op>): Option<GenCode> {
    if op.None? then None else Some(DefaultCode(op.value))
  }

  class Parser {
    const formats: set<string>
    var formatStack: seq<Option<string>>
    var defaultStack: seq<Option<GenCode>>

    constructor (formats: set<string>)
      ensures this.formats == formats && formatStack == [None] && defaultStack == [None]
    {
      this.formats := formats;
      formatStack := [None];
      defaultStack := [None];
    }

    method Instruction(inst: Inst) returns (r: Result<Op>)
      requires formatStack != []
      ensures r == Resolve(inst, Top(formatStack), formats)
      ensures inst.format.Some? && inst.format.value in formats ==> r == Ok(Op(inst.format.value, inst.text))
      ensures inst.format.Some? && inst.format.value !in formats ==> r == Fail(UndefinedFormat)
      ensures inst.format.None? && Top(formatStack).Some? ==> r == Ok(Op(Top(formatStack).value, inst.text))
      ensures inst.format.None? && Top(formatStack).None? ==> r == Fail(NoActiveFormat)
    {
      if inst.format.Some? {
        if inst.format.value !in formats { return Fail(UndefinedFormat); }
        return Ok(Op(inst.format.value, inst.text));
      }
      var current := formatStack[|formatStack| - 1];
      if current.None? { return Fail(NoActiveFormat); }
      r := Ok(Op(current.value, inst.text));
    }

    /** `opt_default` pushes the block's own default, or the inherited one once more. */
    method OptDefault(d: Option<Inst>, ghost inherited: Option<Op>) returns (r: Result<()>)
      requires formatStack != [] && defaultStack != [] && Top(defaultStack) == CodeOf(inherited)
      modifies this`defaultStack
      ensures var own := OwnDefault(Block("", d, One(CppStmt(""))), inherited, Top(formatStack), formats);
              && r.Ok? == own.Ok? && (r.Fail? ==> r.error == own.error)
              && (r.Ok? ==> defaultStack == old(defaultStack) + [CodeOf(own.value)])
      ensures d.None? ==> r.Ok? && defaultStack == old(defaultStack) + [Top(old(defaultStack))]
      ensures d.Some? && r.Ok? ==>
                (exists op :: IsWritten(op, d.value, Top(formatStack))
                              && defaultStack == old(defaultStack) + [Some(DefaultCode(op))])
    {
      if d.None? {
        defaultStack := defaultStack + [defaultStack[|defaultStack| - 1]];
      } else {
        var op :- Instruction(d.value);
        var code := GenCode([Emit(op)], false);
        code := code.(decode := [DefaultCase] + code.decode + [Break]);
        assert code.decode == [DefaultCase, Emit(op), Break];
        defaultStack := defaultStack + [Some(code)];
        assert IsWritten(op, d.value, Top(formatStack));
      }
      r := Ok(());
    }

    /** A decode block yields the reference translation and leaves both stacks as it found them. */
    method DecodeBlock(b: Block, ghost inherited: Option<Op>) returns (r: Result<GenCode>)
      requires formatStack != [] && defaultStack != [] && Top(defaultStack) == CodeOf(inherited)
      modifies this
      ensures r == GenBlock(b, inherited, Top(old(formatStack)), formats)
      ensures r.Ok? ==> formatStack == old(formatStack) && defaultStack == old(defaultStack)
      decreases b, 2
    {
      var _ :- OptDefault(b.opt_default, inherited);
      ghost var own := OwnDefault(b, inherited, Top(formatStack), formats).value;
      var code :- StatementList(b.stmts, own);
      var fallback := defaultStack[|defaultStack| - 1];
      defaultStack := defaultStack[..|defaultStack| - 1];
      if !code.hasDefault {
        if fallback.None? { return Fail(NoDefault); }
        code := Plus(code, fallback.value);
      }
      code := code.(decode := [Switch(b.field, code.decode)]);
      r := Ok(code);
    }

    method StatementList(s: Stmts, ghost own: Option<Op>) returns (r: Result<GenCode>)
      requires formatStack != [] && defaultStack != [] && Top(defaultStack) == CodeOf(own)
      modifies this
      ensures r == GenStmts(s, own, Top(old(formatStack)), formats)
      ensures r.Ok? ==> formatStack == old(formatStack) && defaultStack == old(defaultStack)
      decreases s, 1
    {
      var first :- Statement(s.head, own);
      if s.One? { return Ok(first); }
      var others :- StatementList(s.tail, own);
      if first.hasDefault && others.hasDefault { return Fail(TwoDefaults); }
      r := Ok(Plus(first, others));
    }

    method Statement(s: Stmt, ghost own: Option<Op>) returns (r: Result<GenCode>)
      requires formatStack != [] && defaultStack != [] && Top(defaultStack) == CodeOf(own)
      modifies this
      ensures r == GenStmt(s, own, Top(old(formatStack)), formats)
      ensures r.Ok? ==> formatStack == old(formatStack) && defaultStack == old(defaultStack)
      decreases s, 0
    {
      match s
      case InstStmt(lbl, inst) =>
        var op :- Instruction(inst);
        var code := GenCode([Emit(op)], false);
        code := code.(decode := LabelItems(lbl) + code.decode + [Break]);
        assert code.decode == LabelItems(lbl) + [Emit(op), Break];
        r := Ok(code.(hasDefault := lbl.Default?));
      case DecodeStmt(lbl, block) =>
        var code :- DecodeBlock(block, own);
        code := code.(decode := LabelItems(lbl) + code.decode);
        r := Ok(code.(hasDefault := lbl.Default?));
      case FormatStmt(name, body) =>
        if name !in formats { return Fail(UndefinedFormat); }
        formatStack := formatStack + [Some(name)];
        var code :- StatementList(body, own);
        formatStack := formatStack[..|formatStack| - 1];
        r := Ok(code);
      case CppStmt(text) => r := Ok(GenCode([Directive(text)], false));
    }
  }

  /** A whole description: accepted exactly when well formed, with both stacks back at their start. */
  method Parse(b: Block, formats: set<string>) returns (r: Result<GenCode>)
    ensures r.Ok? <==> BlockOk(b, false, None, formats)
    ensures r == GenBlock(b, None, None, formats)
  {
    var parser := new Parser(formats);
    r := parser.DecodeBlock(b, None);
    AcceptsExactly(b, None, None, formats);
    assert r.Ok? ==> parser.formatStack == [None] && parser.defaultStack == [None];
  }
}
