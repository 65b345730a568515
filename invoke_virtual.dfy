/**
 * The deobfuscator's `invokevirtual` instruction (section 6.5 of the Java
 * Virtual Machine Specification): decoding and encoding of its two-byte
 * constant-pool operand, and its effect on the abstract operand stack
 * when the deobfuscator executes it.
 */
module InvokeVirtualInsn {
  import opened Wrappers
  import opened ByteIo
  import opened PoolNameAndType

  /** A CONSTANT_Methodref pool entry: the class it names and its NameAndType. */
  datatype MethodRef = MethodRef(className: string, nameAndType: NameAndType)

  /** The two ConstantPool services the instruction uses: `getMethod(index)` and `make(entry)`. */
  datatype Pool = Pool(getMethod: int -> MethodRef, make: MethodRef -> int)

  /** The instruction: its resolved method reference and its length in bytes. */
  datatype InvokeVirtual = InvokeVirtual(methodRef: MethodRef, length: nat)

  /**
   * The constructor: the base instruction has read the opcode (`baseLength`
   * bytes); one `readUnsignedShort` at `pos` gives the pool index, and the
   * length grows by 2.  A truncated stream is EOFException, here None.
   */
  function Decode(pool: Pool, code: seq<Byte>, pos: nat, baseLength: nat): (r: Option<(InvokeVirtual, nat)>)
    ensures r.Some? <==> pos + 2 <= |code|
    ensures r.Some? ==> r.value.0.length == baseLength + 2 && r.value.1 == pos + 2
    ensures r.Some? ==> r.value.0.methodRef == pool.getMethod((code[pos] as int) * 256 + code[pos + 1])
  {
    match ReadU16(code, pos)
    case None => None
    case Some((index, next)) => Some((InvokeVirtual(pool.getMethod(index), baseLength + 2), next))
  }

  /** `write`: the base instruction's bytes, then `writeShort(pool.make(method))`. */
  function Encode(pool: Pool, insn: InvokeVirtual, baseBytes: seq<Byte>): (r: seq<Byte>)
    ensures |r| == |baseBytes| + 2 && r[..|baseBytes|] == baseBytes
  {
    baseBytes + U16Bytes(pool.make(insn.methodRef))
  }

  /** Decoding what `write` emitted gives back the method, with the operand adding 2 to the length. */
  lemma DecodeOfEncode(pool: Pool, insn: InvokeVirtual, baseBytes: seq<Byte>, rest: seq<Byte>, baseLength: nat)
    requires 0 <= pool.make(insn.methodRef) < 0x1_0000
    requires pool.getMethod(pool.make(insn.methodRef)) == insn.methodRef
    ensures Decode(pool, Encode(pool, insn, baseBytes) + rest, |baseBytes|, baseLength)
         == Some((InvokeVirtual(insn.methodRef, baseLength + 2), |baseBytes| + 2))
  {
    var s := Encode(pool, insn, baseBytes) + rest;
    var tail := U16Bytes(pool.make(insn.methodRef)) + rest;
    U16RoundTrip(pool.make(insn.methodRef), rest);
    assert s[|baseBytes|..] == tail;
    assert s[|baseBytes|] == tail[0] && s[|baseBytes| + 1] == tail[1];
  }

  /** Encoding a decoded instruction reproduces its operand bytes when the pool maps the entry back to its index. */
  lemma EncodeOfDecode(pool: Pool, code: seq<Byte>, pos: nat, baseLength: nat, baseBytes: seq<Byte>)
    requires pos + 2 <= |code|
    requires var i := (code[pos] as int) * 256 + code[pos + 1]; pool.make(pool.getMethod(i)) == i
    ensures Encode(pool, Decode(pool, code, pos, baseLength).value.0, baseBytes) == baseBytes + code[pos..pos + 2]
  {
    U16BytesOfRead(code, pos);
  }

  /*
   * Executing the instruction.
   */

  /** An operand-stack value: null, an object instance of some class, or anything else. */
  datatype Value = NullRef | Instance(classId: nat) | NotAnObject(tag: int)

  /** A call recorded on the execution path: the resolved method and the argument array. */
  datatype Invocation = Invocation(target: nat, args: seq<Value>)

  datatype Outcome = Completed | ThrewIllegalArgument | ThrewClassCast

  /** The parts of the execution Frame the instruction uses: its operand stack and its path of invocations. */
  class Frame {
    var stack: seq<Value>
    var invocations: seq<Invocation>

    constructor (stack0: seq<Value>)
      ensures stack == stack0 && invocations == []
    {
      stack := stack0;
      invocations := [];
    }

    method Pop() returns (v: Value)
      requires stack != []
      modifies this
      ensures stack == old(stack)[..|old(stack)| - 1] && v == old(stack)[|old(stack)| - 1]
      ensures invocations == old(invocations)
    {
      v := stack[|stack| - 1];
      stack := stack[..|stack| - 1];
    }

    method Push(v: Value)
      modifies this
      ensures stack == old(stack) + [v] && invocations == old(invocations)
    {
      stack := stack + [v];
    }
  }

  /**
   * The argument loop of `execute`: pops the `count` arguments, the last
   * one into `args[count]` and the first into `args[1]`; `args[0]` is left
   * for the receiver.
   */
  method PopArguments(frame: Frame, count: nat) returns (args: array<Value>)
    requires |frame.stack| > count
    modifies frame
    ensures fresh(args) && args.Length == count + 1
    ensures frame.stack == old(frame.stack)[..|old(frame.stack)| - count]
    ensures args[1..] == old(frame.stack)[|old(frame.stack)| - count..]
    ensures frame.invocations == old(frame.invocations)
  {
    ghost var s0 := frame.stack;
    ghost var n := |s0|;
    args := new Value[count + 1](_ => NullRef);
    var i := count;
    while i > 0
      invariant 0 <= i <= count
      invariant frame.stack == s0[..n - count + i]
      invariant frame.invocations == old(frame.invocations)
      invariant forall k :: i < k <= count ==> args[k] == s0[n - count - 1 + k]
    {
      var v := frame.Pop();
      args[i] := v;
      i := i - 1;
    }
  }

  /**
   * `execute`: pop the `count` arguments into `args[count..1]`, pop the
   * receiver, then push null for a null receiver, invoke the method the
   * receiver's class declares, or, when it declares none, push null only
   * for a non-void method.  `findMethod(classId, nameAndType)` stands for
   * `ClassFile.findMethod`.
   */
  method Execute(insn: InvokeVirtual, frame: Frame, findMethod: (nat, NameAndType) -> Option<nat>)
    returns (outcome: Outcome)
    requires ArgCount(insn.methodRef.nameAndType.descriptor).Success? ==>
      |frame.stack| > ArgCount(insn.methodRef.nameAndType.descriptor).value
    modifies frame
    ensures ArgCount(insn.methodRef.nameAndType.descriptor).Failure? ==>
      outcome == ThrewIllegalArgument && frame.stack == old(frame.stack) && frame.invocations == old(frame.invocations)
    ensures ArgCount(insn.methodRef.nameAndType.descriptor).Success? ==>
      var count := ArgCount(insn.methodRef.nameAndType.descriptor).value;
      var n := |old(frame.stack)|;
      var below := old(frame.stack)[..n - count - 1];
      var receiver := old(frame.stack)[n - count - 1];
      var args := old(frame.stack)[n - count..];
      match receiver
      case NullRef =>
        outcome == Completed && frame.stack == below + [NullRef] && frame.invocations == old(frame.invocations)
      case NotAnObject(_) =>
        outcome == ThrewClassCast && frame.stack == below && frame.invocations == old(frame.invocations)
      case Instance(c) =>
        outcome == Completed &&
        match findMethod(c, insn.methodRef.nameAndType)
        case None =>
          frame.stack == below + (if IsNonVoid(insn.methodRef.nameAndType) then [NullRef] else []) &&
          frame.invocations == old(frame.invocations)
        case Some(m) =>
          frame.stack == below && frame.invocations == old(frame.invocations) + [Invocation(m, [receiver] + args)]
  {
    var nt := insn.methodRef.nameAndType;
    var counted := GetNumberOfArgs(nt);
    if counted.Failure? {
      return ThrewIllegalArgument;
    }
    var count := counted.value;
    ghost var s0 := frame.stack;
    ghost var n := |s0|;
    var args := PopArguments(frame, count);
    var receiver := frame.Pop();
    assert frame.stack == s0[..n - count - 1];
    match receiver {
      case NullRef =>
        frame.Push(NullRef);
        return Completed;
      case NotAnObject(_) =>
        return ThrewClassCast;
      case Instance(c) =>
        args[0] := receiver;
        var meth := findMethod(c, nt);
        if meth.None? {
          if IsNonVoid(nt) {
            frame.Push(NullRef);
          }
          return Completed;
        }
        assert args[..] == [receiver] + args[1..];
        frame.invocations := frame.invocations + [Invocation(meth.value, args[..])];
        return Completed;
    }
  }
}
