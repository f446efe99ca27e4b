/** The IR-construction layer of the cervus JIT engine over an abstract
    code-generation backend. The backend state is kept in the wrapper
    objects themselves: a module holds its functions in declaration order,
    a function its blocks in creation order, a block its instructions in
    emission order. What the backend checks when it verifies a module, and
    what engine creation does, enter only as the outcomes of those calls. */
module Engine {
  import opened Wrappers

  /** `u32`, the type of the builder's action counter. */
  type u32 = x: int | 0 <= x < 0x1_0000_0000

  const U32Max: u32 := 0xFFFF_FFFF

  /** The message of the panic a debug build raises when `+= 1` overflows. */
  const OverflowMessage: string := "attempt to add with overflow"

  const EngineCreateMessage: string := "Unable to create execution engine"

  /** An IR value type. The cervus `ValueType` enumeration and its lowering
      to backend types are not part of this model: a type is a tag that the
      backend function type records as given. */
  datatype ValueType = ValueType(tag: nat)

  /** The backend function type built by `LLVMFunctionType`. */
  datatype FunctionType = FunctionType(ret: ValueType, params: seq<ValueType>, isVarArg: bool)

  /** A value handle. Inside engine.rs values are made only by
      `Function::get_param`, so a value is a formal parameter of a function. */
  datatype Value = Param(owner: Function, index: nat)

  /** One instruction in a block: an addition carrying its result name, or
      a return, which the backend emits without a name. */
  datatype Instruction = AddInst(name: string, left: Value, right: Value) | RetInst(value: Value)

  /** The decimal digit `d`. */
  function DigitChar(d: nat): (c: char)
    requires d < 10
    ensures '0' <= c <= '9' && c as int - '0' as int == d
  {
    ('0' as int + d) as char
  }

  /** The number a string of decimal digits spells, read left to right
      (each character counts as its distance from '0'). */
  function DigitsValue(s: string): int
  {
    if s == [] then 0
    else DigitsValue(s[..|s| - 1]) * 10 + (s[|s| - 1] as int - '0' as int)
  }

  /** `format!("{}", n)`: decimal digits, no sign, no leading zero, and
      the digits spell `n`. */
  function Decimal(n: nat): (s: string)
    ensures |s| >= 1
    ensures forall i :: 0 <= i < |s| ==> '0' <= s[i] <= '9'
    ensures DigitsValue(s) == n
    ensures |s| > 1 ==> s[0] != '0'
    ensures n < 10 <==> |s| == 1
    decreases n
  {
    if n < 10 then [DigitChar(n)]
    else
      var s := Decimal(n / 10) + [DigitChar(n % 10)];
      assert s[..|s| - 1] == Decimal(n / 10);
      s
  }

  /** Distinct numbers print differently. */
  lemma DecimalInjective(a: nat, b: nat)
    requires Decimal(a) == Decimal(b)
    ensures a == b
  {
    assert DigitsValue(Decimal(a)) == a && DigitsValue(Decimal(b)) == b;
  }

  /** The name the builder derives from counter value `n`: `action_<n>`. */
  function ActionName(n: nat): (name: string)
    ensures |name| > 7 && name[..7] == "action_"
    ensures forall i :: 7 <= i < |name| ==> '0' <= name[i] <= '9'
    ensures DigitsValue(name[7..]) == n
    ensures |name| > 8 ==> name[7] != '0'
    ensures name[7..] == Decimal(n)
  {
    var name := "action_" + Decimal(n);
    assert name[7..] == Decimal(n);
    name
  }

  /** Different counter values give different instruction names. */
  lemma ActionNameInjective(a: nat, b: nat)
    ensures ActionName(a) == ActionName(b) <==> a == b
  {
    if ActionName(a) == ActionName(b) {
      assert ActionName(a)[7..] == ActionName(b)[7..];
    }
  }

  /** The names a builder has consumed after `n` actions:
      `action_1`, ..., `action_n`. */
  ghost function IssuedNames(n: nat): (names: seq<string>)
    ensures |names| == n
  {
    seq(n, i requires 0 <= i < n => ActionName(i + 1))
  }

  /** One more action extends the consumed names by the next one. */
  lemma IssuedNamesNext(n: nat)
    ensures IssuedNames(n + 1) == IssuedNames(n) + [ActionName(n + 1)]
  {
    assert forall i :: 0 <= i < n ==> IssuedNames(n + 1)[i] == IssuedNames(n)[i];
  }

  /** The consumed names are pairwise distinct, and the k-th one spells
      the number k after its `action_` prefix. */
  lemma IssuedNamesDistinct(n: nat)
    ensures forall i, j :: 0 <= i < n && 0 <= j < n && i != j ==> IssuedNames(n)[i] != IssuedNames(n)[j]
    ensures forall i :: 0 <= i < n ==> |IssuedNames(n)[i]| > 7 && DigitsValue(IssuedNames(n)[i][7..]) == i + 1
  {
    var names := IssuedNames(n);
    forall i | 0 <= i < n
      ensures |names[i]| > 7 && DigitsValue(names[i][7..]) == i + 1
    {
      assert names[i] == ActionName(i + 1);
    }
  }

  /** A compilation unit: `Module::new` registers an empty module. */
  class Module {
    const name: string
    var functions: seq<Function>

    constructor (name: string)
      ensures this.name == name && functions == []
    {
      this.name := name;
      functions := [];
    }
  }

  /** A declared function. Its parameter types are fixed at construction. */
  class Function {
    const parent: Module
    const name: string
    const retType: ValueType
    const paramTypes: seq<ValueType>
    const signature: FunctionType
    var blocks: seq<BasicBlock>

    /** `Function::new`: builds the backend function type from the return
        type and the parameter types, in order, and adds the function at
        the end of the module. */
    constructor (parent: Module, name: string, retType: ValueType, paramTypes: seq<ValueType>)
      modifies parent
      ensures this.parent == parent && this.name == name
      ensures this.retType == retType && this.paramTypes == paramTypes
      ensures signature == FunctionType(retType, paramTypes, false)
      ensures blocks == []
      ensures parent.functions == old(parent.functions) + [this]
    {
      var rawPt: seq<ValueType> := [];
      for i := 0 to |paramTypes|
        invariant rawPt == paramTypes[..i]
      {
        rawPt := rawPt + [paramTypes[i]];
      }
      this.parent := parent;
      this.name := name;
      this.retType := retType;
      this.paramTypes := paramTypes;
      signature := FunctionType(retType, rawPt, false);
      blocks := [];
      new;
      parent.functions := parent.functions + [this];
    }

    /** `Function::get_param`: a bounds check against the declared
        parameter count, never a failure. */
    function GetParam(index: nat): (r: Option<Value>)
      ensures r.Some? <==> index < |paramTypes|
      ensures r.Some? ==> r.value.owner == this && r.value.index == index
    {
      if index < |paramTypes| then Some(Param(this, index)) else None
    }
  }

  /** A basic block of a function. */
  class BasicBlock {
    const func: Function
    const name: string
    var instructions: seq<Instruction>

    /** `BasicBlock::new`: appends an empty block at the end of the
        function's block list; the blocks before it are untouched. */
    constructor (func: Function, name: string)
      modifies func
      ensures this.func == func && this.name == name && instructions == []
      ensures func.blocks == old(func.blocks) + [this]
    {
      this.func := func;
      this.name := name;
      instructions := [];
      new;
      func.blocks := func.blocks + [this];
    }
  }

  /** An instruction to emit. */
  datatype Action = Add(left: Value, right: Value) | Return(value: Value)
  {
    /** `Action::build`: consumes the next counter value for every
        variant, then emits the instruction at the end of the builder's
        block, naming it only when it is an addition. */
    method Build(builder: Builder) returns (r: Outcome<Instruction>)
      requires builder.Valid()
      modifies builder, builder.block
      ensures builder.Valid()
      ensures old(builder.nextActionId) == U32Max ==>
        r == Panic(OverflowMessage) && builder.nextActionId == old(builder.nextActionId) &&
        builder.block.instructions == old(builder.block.instructions)
      ensures old(builder.nextActionId) < U32Max ==>
        r.Ok? && builder.nextActionId == old(builder.nextActionId) + 1 &&
        builder.block.instructions == old(builder.block.instructions) + [r.value]
      ensures old(builder.nextActionId) < U32Max && Add? ==>
        r == Ok(AddInst(ActionName(builder.nextActionId), left, right))
      ensures old(builder.nextActionId) < U32Max && Return? ==>
        r == Ok(RetInst(value))
    {
      if builder.nextActionId == U32Max {
        return Panic(OverflowMessage);
      }
      builder.nextActionId := builder.nextActionId + 1;
      var actionName := ActionName(builder.nextActionId);
      IssuedNamesNext(builder.nextActionId - 1);
      builder.issued := builder.issued + [actionName];
      var inst: Instruction;
      match this {
        case Add(l, rhs) =>
          inst := AddInst(actionName, l, rhs);
        case Return(v) =>
          inst := RetInst(v);
      }
      builder.block.instructions := builder.block.instructions + [inst];
      r := Ok(inst);
    }
  }

  /** A cursor at the end of one block, with its own action counter. */
  class Builder {
    const block: BasicBlock
    var nextActionId: u32
    var disposed: bool
    /** The instruction names consumed so far, one per action. */
    ghost var issued: seq<string>

    ghost predicate Valid()
      reads this
    {
      !disposed && issued == IssuedNames(nextActionId)
    }

    /** `Builder::new`: a fresh cursor on `bb` whose counter starts at 0. */
    constructor (bb: BasicBlock)
      ensures Valid()
      ensures block == bb && nextActionId == 0 && issued == []
    {
      block := bb;
      nextActionId := 0;
      disposed := false;
      issued := [];
    }

    /** `Builder::append`: applies the action; the block grows by one
        instruction and the counter by one, or the counter overflows. */
    method Append(act: Action) returns (r: Outcome<()>)
      requires Valid()
      modifies this, block
      ensures Valid()
      ensures old(nextActionId) == U32Max ==>
        r == Panic(OverflowMessage) && nextActionId == old(nextActionId) &&
        block.instructions == old(block.instructions)
      ensures old(nextActionId) < U32Max ==>
        r == Ok(()) && nextActionId == old(nextActionId) + 1 &&
        issued == old(issued) + [ActionName(nextActionId)]
      ensures old(nextActionId) < U32Max && act.Add? ==>
        block.instructions == old(block.instructions) + [AddInst(ActionName(nextActionId), act.left, act.right)]
      ensures old(nextActionId) < U32Max && act.Return? ==>
        block.instructions == old(block.instructions) + [RetInst(act.value)]
    {
      var built := act.Build(this);
      if built.Ok? {
        r := Ok(());
      } else {
        r := Panic(OverflowMessage);
      }
    }

    /** `Drop for Builder`: the backend cursor is released; Rust runs this
        exactly once per builder. */
    method Drop()
      requires !disposed
      modifies this
      ensures disposed
      ensures nextActionId == old(nextActionId) && issued == old(issued)
    {
      disposed := true;
    }
  }

  /** What `LLVMVerifyModule` did: whether it found the module broken, and
      the message it stored in the out-pointer, if it stored one. */
  datatype VerifyCall = VerifyCall(broken: bool, message: Option<string>)

  /** What `LLVMCreateExecutionEngineForModule` did: its status, the
      engine handle, and the error it stored in the out-pointer, if any. */
  datatype CreateCall = CreateCall(status: int, engine: nat, error: Option<string>)

  /** A compiled module; it refers to its source module without owning it. */
  datatype ExecutionEngine = ExecutionEngine(source: Module, handle: nat)

  /** `ExecutionEngine::new` in the order engine.rs writes it. A broken
      module aborts the process inside verification. `err_str` still points
      at the verifier's message after it was disposed, and engine creation
      overwrites it only when it fails. Reading the disposed message is
      undefined; the model takes it to be the text before disposal. */
  function NewExecutionEngineAsWritten(m: Module, verify: VerifyCall, create: CreateCall): (r: Outcome<ExecutionEngine>)
    ensures r == Abort <==> verify.broken
    ensures r.Ok? <==> !verify.broken && create.status == 0 && create.error.None? && verify.message.None?
    ensures r.Ok? ==> r.value == ExecutionEngine(m, create.engine)
  {
    if verify.broken then Abort
    else
      var errStr := if create.error.Some? then create.error else verify.message;
      if create.status != 0 then Panic(EngineCreateMessage)
      else if errStr.Some? then Panic(errStr.value)
      else Ok(ExecutionEngine(m, create.engine))
  }

  /** The verifier reports a valid module with a message (the C API
      stores a copy of its report, empty when nothing is wrong), engine
      creation succeeds, and yet the code as written panics. */
  lemma AsWrittenPanicsOnValidModule(m: Module, engine: nat)
    ensures NewExecutionEngineAsWritten(m, VerifyCall(false, Some("")), CreateCall(0, engine, None)) == Panic("")
    ensures NewExecutionEngine(m, VerifyCall(false, Some("")), CreateCall(0, engine, None)) == Ok(ExecutionEngine(m, engine))
  {
  }

  /** `ExecutionEngine::new` with `err_str` reset after the verifier's
      message is disposed. An engine tied to `m` comes back exactly when
      verification passes, creation returns 0 and sets no error; every
      other case ends the program. */
  function NewExecutionEngine(m: Module, verify: VerifyCall, create: CreateCall): (r: Outcome<ExecutionEngine>)
    ensures r == Abort <==> verify.broken
    ensures r.Ok? <==> !verify.broken && create.status == 0 && create.error.None?
    ensures r.Ok? ==> r.value == ExecutionEngine(m, create.engine)
    ensures r.Panic? && create.status != 0 ==> r.message == EngineCreateMessage
    ensures r.Panic? && create.status == 0 ==> create.error == Some(r.message)
  {
    if verify.broken then Abort
    else if create.status != 0 then Panic(EngineCreateMessage)
    else if create.error.Some? then Panic(create.error.value)
    else Ok(ExecutionEngine(m, create.engine))
  }

  /** The two agree whenever the verifier leaves the out-pointer null,
      and then the verifier's message plays no part. */
  lemma NewExecutionEngineMatchesAsWritten(m: Module, verify: VerifyCall, create: CreateCall)
    ensures verify.message.None? ==> NewExecutionEngineAsWritten(m, verify, create) == NewExecutionEngine(m, verify, create)
    ensures NewExecutionEngine(m, verify, create) == NewExecutionEngine(m, VerifyCall(verify.broken, None), create)
  {
  }

  /** Building `p0 + p1` then `return p0` in one block through one builder:
      the block holds exactly those two instructions, the addition named
      `action_1`, and the counter has consumed two values. A second builder
      on another block of the same function starts its own count at 0. */
  method BuildExample() returns (f: Function, entry: BasicBlock, b: Builder, other: Builder)
    ensures entry.func == f && |f.blocks| == 2 && f.blocks[0] == entry
    ensures entry.instructions == [AddInst("action_1", Param(f, 0), Param(f, 1)), RetInst(Param(f, 0))]
    ensures b.nextActionId == 2 && other.nextActionId == 0
  {
    var m := new Module("m");
    var i32 := ValueType(32);
    f := new Function(m, "sum", i32, [i32, i32]);
    entry := new BasicBlock(f, "entry");
    var exit := new BasicBlock(f, "exit");
    b := new Builder(entry);
    other := new Builder(exit);
    var p0 := f.GetParam(0);
    var p1 := f.GetParam(1);
    assert ActionName(1) == "action_1" by {
      assert Decimal(1) == "1";
    }
    var r := b.Append(Add(p0.value, p1.value));
    r := b.Append(Return(p0.value));
  }
}
