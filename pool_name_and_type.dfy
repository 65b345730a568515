/**
 * The deobfuscator's CONSTANT_NameAndType_info pool entry
 * (section 4.4.6 of the Java Virtual Machine Specification).
 *
 * The Java object carries both the two UTF8 indices it reads from the
 * class file and, once resolved against the pool, the name and descriptor
 * strings.  Here the indices are `Indices` (what is read and written) and
 * the strings are `NameAndType` (what `equals`, `getNumberOfArgs`,
 * `isNonVoid` and `getStackObject` look at).
 */
module PoolNameAndType {
  import opened Wrappers
  import opened ByteIo
  import opened JavaString

  /** The body of the entry in the class file: two u2 constant-pool indices. */
  datatype Indices = Indices(nameIndex: int, descriptorIndex: int)

  /** The resolved entry: a member name and its descriptor. */
  datatype NameAndType = NameAndType(name: string, descriptor: string)

  /*
   * Reading and writing the entry body.
   */

  /** The stream constructor: `readUnsignedShort` for the name index, then for the descriptor index. */
  function Read(s: seq<Byte>, pos: nat): (r: Option<(Indices, nat)>)
    ensures r.Some? <==> pos + 4 <= |s|
    ensures r.Some? ==> r.value.1 == pos + 4
    ensures r.Some? ==> 0 <= r.value.0.nameIndex < 0x1_0000 && 0 <= r.value.0.descriptorIndex < 0x1_0000
  {
    match ReadU16(s, pos)
    case None => None
    case Some((n, p1)) =>
      match ReadU16(s, p1)
      case None => None
      case Some((d, p2)) => Some((Indices(n, d), p2))
  }

  /** `write`: `writeShort(nameIndex)` then `writeShort(descriptorIndex)`. */
  function Write(e: Indices): (r: seq<Byte>)
    ensures |r| == 4
  {
    U16Bytes(e.nameIndex) + U16Bytes(e.descriptorIndex)
  }

  /** Writing an entry read from the stream reproduces the four bytes it came from. */
  lemma WriteOfRead(s: seq<Byte>, pos: nat)
    requires pos + 4 <= |s|
    ensures Write(Read(s, pos).value.0) == s[pos..pos + 4]
  {
    U16BytesOfRead(s, pos);
    U16BytesOfRead(s, pos + 2);
  }

  /** Reading back what `write` emitted gives the same two indices. */
  lemma ReadOfWrite(e: Indices, rest: seq<Byte>)
    requires 0 <= e.nameIndex < 0x1_0000 && 0 <= e.descriptorIndex < 0x1_0000
    ensures Read(Write(e) + rest, 0) == Some((e, 4))
  {
    var s := Write(e) + rest;
    U16RoundTrip(e.nameIndex, s[2..]);
    assert s == U16Bytes(e.nameIndex) + s[2..];
    U16RoundTrip(e.descriptorIndex, rest);
    assert s[2..] == U16Bytes(e.descriptorIndex) + rest;
    assert ReadU16(s, 2) == ReadU16(s[2..], 0).(value := (ReadU16(s[2..], 0).value.0, 4));
  }

  /*
   * `equals`, `isNonVoid` and `getStackObject`.
   */

  /**
   * `equals(other)`: `other` is None when it is not a NameAndType.
   */
  predicate Equals(self: NameAndType, other: Option<NameAndType>)
  {
    other.Some? && self.name == other.value.name && self.descriptor == other.value.descriptor
  }

  /** `isNonVoid`: constructors count as non-void; otherwise the descriptor must not end in ")V". */
  predicate IsNonVoid(nt: NameAndType)
  {
    nt.name == "<init>" || !EndsWith(nt.descriptor, ")V")
  }

  /** A boxed zero of a JVM base type (named by its descriptor character), or null. */
  datatype StackObject = Null | Zero(baseType: char)

  /** `getStackObject` as written: note "L" gives a long zero and "J" gives null. */
  function GetStackObject(desc: string): (r: StackObject)
    ensures r.Zero? <==> desc in {"B", "C", "I", "Z", "D", "F", "L"}
    ensures r.Zero? && desc != "L" ==> desc == [r.baseType]
    ensures desc == "L" ==> r == Zero('J')
  {
    match desc
    case "B" => Zero('B')
    case "C" => Zero('C')
    case "I" => Zero('I')
    case "S" => Null
    case "Z" => Zero('Z')
    case "D" => Zero('D')
    case "F" => Zero('F')
    case "L" => Zero('J')
    case _ => Null
  }

  /** The descriptor "J" (long) gets null, while "L", which is no field descriptor at all, gets a long zero. */
  lemma GetStackObjectConfusesLong()
    ensures GetStackObject("J") == Null
    ensures GetStackObject("L") == Zero('J')
    ensures !IsFieldDescriptor("L")
  {
    assert !IsFieldDescriptor("L") by {
      forall t: FieldType | ValidField(t)
        ensures RenderField(t) != "L"
      {
        RenderFieldShape(t);
      }
    }
  }

  /** `getStackObject` with "J" mapped to a long zero and "L" left to the default. */
  function GetStackObjectCorrected(desc: string): (r: StackObject)
  {
    match desc
    case "B" => Zero('B')
    case "C" => Zero('C')
    case "I" => Zero('I')
    case "S" => Null
    case "Z" => Zero('Z')
    case "D" => Zero('D')
    case "F" => Zero('F')
    case "J" => Zero('J')
    case _ => Null
  }

  /**
   * The corrected mapping gives a zero only for a base-type descriptor,
   * of exactly that type, and gives one for every base type but short.
   */
  lemma GetStackObjectCorrectedTyped(desc: string)
    ensures GetStackObjectCorrected(desc).Zero? ==>
      IsFieldDescriptor(desc) && desc == [GetStackObjectCorrected(desc).baseType]
    ensures |desc| == 1 && IsBaseTypeChar(desc[0]) && desc != "S" ==> GetStackObjectCorrected(desc) == Zero(desc[0])
  {
    if GetStackObjectCorrected(desc).Zero? {
      assert RenderField(BaseType(desc[0])) == desc;
    }
    if |desc| == 1 {
      var c := desc[0];
      assert desc == [c];
      if c == 'B' { assert desc == "B"; }
      else if c == 'C' { assert desc == "C"; }
      else if c == 'D' { assert desc == "D"; }
      else if c == 'F' { assert desc == "F"; }
      else if c == 'I' { assert desc == "I"; }
      else if c == 'J' { assert desc == "J"; }
      else if c == 'Z' { assert desc == "Z"; }
    }
  }

  /*
   * Method descriptors (section 4.3.3 of the JVM Specification), as a
   * reference for `getNumberOfArgs` and `isNonVoid`.
   */

  predicate IsBaseTypeChar(c: char)
  {
    c in {'B', 'C', 'D', 'F', 'I', 'J', 'S', 'Z'}
  }

  predicate IsLineTerminator(c: char)
  {
    c in {'\n', '\r', '\U{85}', '\U{2028}', '\U{2029}'}
  }

  datatype FieldType = BaseType(c: char) | ObjectType(className: string) | ArrayType(component: FieldType)

  datatype ReturnDescriptor = Void | Returns(t: FieldType)

  datatype MethodDescriptor = MethodDescriptor(params: seq<FieldType>, ret: ReturnDescriptor)

  /**
   * A well-formed field type.  Class names are non-empty and contain no
   * ';' (section 4.2.1); the additional exclusion of ')' and of line
   * terminators keeps the parenthesised group a single regex match.
   */
  predicate ValidField(t: FieldType)
  {
    match t
    case BaseType(c) => IsBaseTypeChar(c)
    case ObjectType(n) => n != [] && forall i :: 0 <= i < |n| ==> n[i] != ';' && n[i] != ')' && !IsLineTerminator(n[i])
    case ArrayType(u) => ValidField(u)
  }

  predicate ValidMethod(md: MethodDescriptor)
  {
    (forall i :: 0 <= i < |md.params| ==> ValidField(md.params[i])) &&
    (md.ret.Returns? ==> ValidField(md.ret.t))
  }

  function RenderField(t: FieldType): string
  {
    match t
    case BaseType(c) => [c]
    case ObjectType(n) => "L" + n + ";"
    case ArrayType(u) => "[" + RenderField(u)
  }

  function RenderParams(ps: seq<FieldType>): string
  {
    if ps == [] then "" else RenderField(ps[0]) + RenderParams(ps[1..])
  }

  function RenderReturn(r: ReturnDescriptor): string
  {
    match r
    case Void => "V"
    case Returns(t) => RenderField(t)
  }

  function RenderMethod(md: MethodDescriptor): string
  {
    "(" + RenderParams(md.params) + ")" + RenderReturn(md.ret)
  }

  ghost predicate IsFieldDescriptor(s: string)
  {
    exists t: FieldType :: ValidField(t) && RenderField(t) == s
  }

  /** A rendered field type is non-empty, starts with '[', 'L' or a base type, and ends in ';' or a base type. */
  lemma {:induction false} RenderFieldShape(t: FieldType)
    requires ValidField(t)
    ensures |RenderField(t)| >= 1
    ensures var s := RenderField(t);
      (s[0] == '[' || s[0] == 'L' || IsBaseTypeChar(s[0])) &&
      (s[|s| - 1] == ';' || IsBaseTypeChar(s[|s| - 1]))
    ensures t.ObjectType? ==> |RenderField(t)| >= 3
    ensures t.ArrayType? ==> |RenderField(t)| >= 2
  {
    match t
    case BaseType(c) =>
    case ObjectType(n) =>
    case ArrayType(u) =>
      RenderFieldShape(u);
  }

  /*
   * The two regular expressions of `getNumberOfArgs`, as matchers over
   * positions.  `allParamsPattern` is "(\(.*?\))": the first '(' from
   * which a ')' can be reached without crossing a line terminator ('.'
   * does not match one), with the shortest such span.  `paramsPattern` is
   * "(\[?)(B|C|Z|S|I|J|F|D|(:?L[^;]+;))", whose ":?" is an optional
   * literal colon.
   */

  /** The first ')' at or after `k`, provided no line terminator comes first. */
  function CloseFrom(d: string, k: nat): (r: Option<nat>)
    requires k <= |d|
    ensures r.Some? ==> k <= r.value < |d| && d[r.value] == ')'
    decreases |d| - k
  {
    if k == |d| then None
    else if d[k] == ')' then Some(k)
    else if IsLineTerminator(d[k]) then None
    else CloseFrom(d, k + 1)
  }

  /** The span [i, j] of the first match of `allParamsPattern` starting at or after `from`. */
  function GroupFrom(d: string, from: nat): (r: Option<(nat, nat)>)
    requires from <= |d|
    ensures r.Some? ==> from <= r.value.0 < r.value.1 < |d|
    ensures r.Some? ==> d[r.value.0] == '(' && d[r.value.1] == ')'
    decreases |d| - from
  {
    if from == |d| then None
    else if d[from] == '(' && CloseFrom(d, from + 1).Some? then Some((from, CloseFrom(d, from + 1).value))
    else GroupFrom(d, from + 1)
  }

  /** `m.group(1)` after a successful `m.find()`, or None when `find` fails. */
  function ParamsGroup(d: string): (r: Option<string>)
    ensures r.Some? ==> |r.value| >= 2 && r.value[0] == '(' && r.value[|r.value| - 1] == ')'
  {
    match GroupFrom(d, 0)
    case None => None
    case Some((i, j)) => Some(d[i..j + 1])
  }

  /** The first ';' at or after `k`. */
  function SemicolonFrom(s: string, k: nat): (r: Option<nat>)
    requires k <= |s|
    ensures r.Some? ==> k <= r.value < |s| && s[r.value] == ';'
    ensures r.Some? ==> forall i :: k <= i < r.value ==> s[i] != ';'
    decreases |s| - k
  {
    if k == |s| then None
    else if s[k] == ';' then Some(k)
    else SemicolonFrom(s, k + 1)
  }

  /** The first `;` from `k` on is at `e` when none comes before it. */
  lemma {:induction false} SemicolonAt(s: string, k: nat, e: nat)
    requires k <= e < |s| && s[e] == ';'
    requires forall i :: k <= i < e ==> s[i] != ';'
    ensures SemicolonFrom(s, k) == Some(e)
    decreases e - k
  {
    if k < e {
      SemicolonAt(s, k + 1, e);
    }
  }

  /** "L[^;]+;" at `q`: the end of the match. */
  function ObjectMatchAt(s: string, q: nat): (r: Option<nat>)
    requires q <= |s|
    ensures r.Some? ==> q < r.value <= |s|
  {
    if q < |s| && s[q] == 'L' then
      match SemicolonFrom(s, q + 1)
      case None => None
      case Some(k) => if k >= q + 2 then Some(k + 1) else None
    else None
  }

  /** The second group, "B|C|Z|S|I|J|F|D|(:?L[^;]+;)", at `q`. */
  function TypeMatchAt(s: string, q: nat): (r: Option<nat>)
    requires q <= |s|
    ensures r.Some? ==> q < r.value <= |s|
  {
    if q < |s| && IsBaseTypeChar(s[q]) then Some(q + 1)
    else if q < |s| && s[q] == ':' then ObjectMatchAt(s, q + 1)
    else ObjectMatchAt(s, q)
  }

  /** The whole `paramsPattern` at `q`; "\[?" is greedy, so a '[' is taken when the rest still matches. */
  function ParamMatchAt(s: string, q: nat): (r: Option<nat>)
    requires q <= |s|
    ensures r.Some? ==> q < r.value <= |s|
  {
    if q < |s| && s[q] == '[' then TypeMatchAt(s, q + 1) else TypeMatchAt(s, q)
  }

  /** `find()` from `pos`: the leftmost match, as (start, end). */
  function FindFrom(s: string, pos: nat): (r: Option<(nat, nat)>)
    requires pos <= |s|
    ensures r.Some? ==> pos <= r.value.0 < r.value.1 <= |s|
    decreases |s| - pos
  {
    if pos == |s| then None
    else match ParamMatchAt(s, pos)
      case Some(e) => Some((pos, e))
      case None => FindFrom(s, pos + 1)
  }

  /** How many times `find()` succeeds from `pos`, each search resuming where the last match ended. */
  function CountMatches(s: string, pos: nat): nat
    requires pos <= |s|
    decreases |s| - pos
  {
    match FindFrom(s, pos)
    case None => 0
    case Some((_, e)) => 1 + CountMatches(s, e)
  }

  datatype ArgCountError = IllegalArgument

  /** What `getNumberOfArgs` returns or throws, as a function of the descriptor. */
  function ArgCount(desc: string): Result<nat, ArgCountError>
  {
    match ParamsGroup(desc)
    case None => Failure(IllegalArgument)
    case Some(g) => Success(CountMatches(g, 0))
  }

  /** `getNumberOfArgs`: one `find` of the group, then a counting loop over `find` calls. */
  method GetNumberOfArgs(nt: NameAndType) returns (r: Result<nat, ArgCountError>)
    ensures r.Failure? <==> ParamsGroup(nt.descriptor).None?
    ensures r == ArgCount(nt.descriptor)
  {
    var group := ParamsGroup(nt.descriptor);
    if group.None? {
      return Failure(IllegalArgument);
    }
    var g := group.value;
    var count := 0;
    var pos := 0;
    var m := FindFrom(g, pos);
    while m.Some?
      invariant pos <= |g|
      invariant m == FindFrom(g, pos)
      invariant count + CountMatches(g, pos) == CountMatches(g, 0)
      decreases |g| - pos
    {
      count := count + 1;
      pos := m.value.1;
      m := FindFrom(g, pos);
    }
    return Success(count);
  }

  /** From the start of a rendered field type, `find` matches exactly up to its end. */
  lemma {:induction false} FindField(s: string, pos: nat, t: FieldType)
    requires ValidField(t)
    requires pos + |RenderField(t)| <= |s| && s[pos..pos + |RenderField(t)|] == RenderField(t)
    ensures FindFrom(s, pos).Some? && FindFrom(s, pos).value.1 == pos + |RenderField(t)|
    decreases t
  {
    var r := RenderField(t);
    assert s[pos] == r[0];
    match t
    case BaseType(c) =>
      assert ParamMatchAt(s, pos) == Some(pos + 1);
    case ObjectType(n) =>
      ObjectMatch(s, pos, n);
      assert ParamMatchAt(s, pos) == Some(pos + |r|);
    case ArrayType(u) =>
      var ru := RenderField(u);
      RenderFieldShape(u);
      assert s[pos + 1..pos + 1 + |ru|] == ru by {
        assert s[pos + 1..pos + 1 + |ru|] == s[pos..pos + |r|][1..];
      }
      assert s[pos + 1] == ru[0];
      match u
      case BaseType(c) =>
        assert ParamMatchAt(s, pos) == Some(pos + 2);
      case ObjectType(n) =>
        ObjectMatch(s, pos + 1, n);
        assert ParamMatchAt(s, pos) == Some(pos + |r|);
      case ArrayType(_) =>
        assert ParamMatchAt(s, pos) == None;
        FindField(s, pos + 1, u);
        assert FindFrom(s, pos) == FindFrom(s, pos + 1);
  }

  /** "L<name>;" at `pos` matches "L[^;]+;" up to its end. */
  lemma ObjectMatch(s: string, pos: nat, n: string)
    requires ValidField(ObjectType(n))
    requires pos + |n| + 2 <= |s| && s[pos..pos + |n| + 2] == "L" + n + ";"
    ensures ObjectMatchAt(s, pos) == Some(pos + |n| + 2)
    ensures TypeMatchAt(s, pos) == Some(pos + |n| + 2)
  {
    var r := "L" + n + ";";
    assert s[pos] == r[0] == 'L';
    assert s[pos + 1 + |n|] == r[1 + |n|] == ';';
    forall i | pos + 1 <= i < pos + 1 + |n|
      ensures s[i] != ';'
    {
      assert s[i] == r[i - pos] == n[i - pos - 1];
    }
    SemicolonAt(s, pos + 1, pos + 1 + |n|);
  }

  /** `find` counts one match per parameter, then none at the closing ')'. */
  lemma {:induction false} CountParams(s: string, pos: nat, ps: seq<FieldType>)
    requires forall i :: 0 <= i < |ps| ==> ValidField(ps[i])
    requires pos + |RenderParams(ps)| + 1 == |s|
    requires s[pos..pos + |RenderParams(ps)|] == RenderParams(ps) && s[|s| - 1] == ')'
    ensures CountMatches(s, pos) == |ps|
    decreases ps
  {
    if ps == [] {
      assert FindFrom(s, pos + 1) == None;
    } else {
      var r0 := RenderField(ps[0]);
      var rest := RenderParams(ps[1..]);
      assert s[pos..pos + |r0|] == r0 by {
        assert s[pos..pos + |r0|] == s[pos..pos + |RenderParams(ps)|][..|r0|];
      }
      FindField(s, pos, ps[0]);
      assert s[pos + |r0|..pos + |r0| + |rest|] == rest by {
        assert s[pos + |r0|..pos + |r0| + |rest|] == s[pos..pos + |RenderParams(ps)|][|r0|..];
      }
      CountParams(s, pos + |r0|, ps[1..]);
    }
  }

  /** No ')' and no line terminator occur in rendered parameters. */
  lemma {:induction false} RenderParamsChars(ps: seq<FieldType>)
    requires forall i :: 0 <= i < |ps| ==> ValidField(ps[i])
    ensures forall i :: 0 <= i < |RenderParams(ps)| ==>
      RenderParams(ps)[i] != ')' && !IsLineTerminator(RenderParams(ps)[i])
    decreases ps
  {
    if ps != [] {
      RenderFieldChars(ps[0]);
      RenderParamsChars(ps[1..]);
    }
  }

  /** A rendered field type holds no `)` and no line terminator. */
  lemma {:induction false} RenderFieldChars(t: FieldType)
    requires ValidField(t)
    ensures forall i :: 0 <= i < |RenderField(t)| ==>
      RenderField(t)[i] != ')' && !IsLineTerminator(RenderField(t)[i])
  {
    match t
    case BaseType(c) =>
    case ObjectType(n) =>
      assert forall i :: 0 <= i < |n| ==> RenderField(t)[i + 1] == n[i];
    case ArrayType(u) =>
      RenderFieldChars(u);
  }

  /** After parameters free of `)` the first `)` is the one that closes them. */
  lemma {:induction false} CloseAfterParams(d: string, k: nat, p: string)
    requires k + |p| < |d| && d[k..k + |p|] == p && d[k + |p|] == ')'
    requires forall i :: 0 <= i < |p| ==> p[i] != ')' && !IsLineTerminator(p[i])
    ensures CloseFrom(d, k) == Some(k + |p|)
    decreases |p|
  {
    if p != [] {
      assert d[k] == p[0];
      CloseAfterParams(d, k + 1, p[1..]);
    }
  }

  /**
   * For a well-formed method descriptor, `getNumberOfArgs` is the number of
   * parameter descriptors: the return type is not counted and an array of
   * any dimension counts once.
   */
  lemma ArgCountOfMethod(md: MethodDescriptor)
    requires ValidMethod(md)
    ensures ArgCount(RenderMethod(md)) == Success(|md.params|)
  {
    var d := RenderMethod(md);
    var p := RenderParams(md.params);
    RenderParamsChars(md.params);
    assert d[1..1 + |p|] == p;
    CloseAfterParams(d, 1, p);
    assert GroupFrom(d, 0) == Some((0, 1 + |p|));
    var g := d[0..|p| + 2];
    assert g == "(" + p + ")";
    assert g[1..1 + |p|] == p;
    CountParams(g, 1, md.params);
    assert FindFrom(g, 0) == FindFrom(g, 1);
  }

  /** A descriptor without a parenthesised group makes `getNumberOfArgs` throw IllegalArgumentException. */
  lemma ArgCountWithoutGroup(desc: string)
    requires forall i :: 0 <= i < |desc| ==> desc[i] != '('
    ensures ArgCount(desc) == Failure(IllegalArgument)
  {
    var k := |desc|;
    while k > 0
      invariant 0 <= k <= |desc|
      invariant GroupFrom(desc, k) == None
    {
      k := k - 1;
    }
  }

  /** For a method other than a constructor, `isNonVoid` holds exactly when the return descriptor is not V. */
  lemma IsNonVoidOfMethod(name: string, md: MethodDescriptor)
    requires ValidMethod(md)
    ensures IsNonVoid(NameAndType("<init>", RenderMethod(md)))
    ensures name != "<init>" ==> (IsNonVoid(NameAndType(name, RenderMethod(md))) <==> md.ret.Returns?)
  {
    var d := RenderMethod(md);
    if md.ret.Returns? {
      RenderFieldShape(md.ret.t);
      assert d[|d| - 1] == RenderField(md.ret.t)[|RenderField(md.ret.t)| - 1];
    } else {
      assert d[|d| - 2..] == ")V";
    }
  }

  /** `equals` is an equivalence: reflexive, symmetric and transitive. */
  lemma EqualsIsEquivalence(a: NameAndType, b: NameAndType, c: NameAndType)
    ensures Equals(a, Some(a))
    ensures Equals(a, Some(b)) ==> Equals(b, Some(a))
    ensures Equals(a, Some(b)) && Equals(b, Some(c)) ==> Equals(a, Some(c))
    ensures !Equals(a, None)
  {}

  /** Entries that are `equals` agree on every derived answer. */
  lemma EqualsRespected(a: NameAndType, b: NameAndType)
    requires Equals(a, Some(b))
    ensures a == b
    ensures ArgCount(a.descriptor) == ArgCount(b.descriptor)
    ensures IsNonVoid(a) == IsNonVoid(b)
    ensures GetStackObject(a.descriptor) == GetStackObject(b.descriptor)
  {}
}
