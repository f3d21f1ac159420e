/**
 * Metadata of the logical operator nodes of the expression engine: the
 * operator enumeration, the table of operator names, name lookup, the
 * precedence of logical nodes, their child counts and Boolean evaluation.
 */
module LogicalOperator {
  import opened Wrappers

  /** The binary logical operators, in declaration order. */
  datatype OperatorType = And | Or | Xor | Nand | Nor

  /** Length of the enumeration (its `LengthOfEnum` terminator). */
  const NumberOfOperators: nat := 5

  /** Name of the unary operator. */
  const NotName: string := "not"

  /** Room for the longest name ("nand"), a space on each side and a terminator. */
  const SizeOfNameBuffer: nat := 4 + 2 + 1

  /** One entry of the name table. */
  datatype NameEntry = NameEntry(op: OperatorType, name: string)

  /** The name table, in enumeration order. */
  const OperatorNames: seq<NameEntry> := [
    NameEntry(And, "and"),
    NameEntry(Or, "or"),
    NameEntry(Xor, "xor"),
    NameEntry(Nand, "nand"),
    NameEntry(Nor, "nor")
  ]

  /** Kinds of expression node that the precedence function distinguishes. */
  datatype NodeKind = NotOperator | BinaryLogicalOperator(op: OperatorType) | NonLogical

  /** Position of an operator in the enumeration. */
  function Ordinal(op: OperatorType): (k: nat)
    ensures k < NumberOfOperators
  {
    match op
    case And => 0
    case Or => 1
    case Xor => 2
    case Nand => 3
    case Nor => 4
  }

  /** First table entry at or after `i` whose name is `token`. */
  function LookupFrom(token: string, i: nat): (r: Option<OperatorType>)
    requires i <= |OperatorNames|
    ensures r.Some? <==> exists j :: i <= j < |OperatorNames| && OperatorNames[j].name == token
    ensures r.Some? ==> exists j :: i <= j < |OperatorNames| && OperatorNames[j] == NameEntry(r.value, token)
    decreases |OperatorNames| - i
  {
    if i == |OperatorNames| then None
    else if OperatorNames[i].name == token then Some(OperatorNames[i].op)
    else LookupFrom(token, i + 1)
  }

  /**
   * Whether the first `nameLength` characters of `name` spell a binary
   * logical operator, and which one.
   */
  function IsBinaryLogicalOperator(name: string, nameLength: nat): (r: Option<OperatorType>)
    requires nameLength <= |name|
    ensures r.Some? <==> exists j :: 0 <= j < |OperatorNames| && OperatorNames[j].name == name[..nameLength]
    ensures r.Some? ==> exists j :: 0 <= j < |OperatorNames| && OperatorNames[j] == NameEntry(r.value, name[..nameLength])
  {
    LookupFrom(name[..nameLength], 0)
  }

  /** Name of the first table entry at or after `i` whose type is `op`. */
  function NameFrom(op: OperatorType, i: nat): (r: Option<string>)
    requires i <= |OperatorNames|
    ensures r.Some? <==> exists j :: i <= j < |OperatorNames| && OperatorNames[j].op == op
    ensures r.Some? ==> exists j :: i <= j < |OperatorNames| && OperatorNames[j] == NameEntry(op, r.value)
    decreases |OperatorNames| - i
  {
    if i == |OperatorNames| then None
    else if OperatorNames[i].op == op then Some(OperatorNames[i].name)
    else NameFrom(op, i + 1)
  }

  /** The name a binary logical node prints, found in the name table. */
  function OperatorName(op: OperatorType): (r: string)
    ensures NameEntry(op, r) in OperatorNames
  {
    var found := NameFrom(op, 0);
    assert OperatorNames[Ordinal(op)].op == op;
    found.value
  }

  /** The connective each binary operator computes. */
  function Evaluate(op: OperatorType, a: bool, b: bool): (r: bool)
    ensures r == TruthTable(op)[(if a then 2 else 0) + (if b then 1 else 0)]
  {
    match op
    case And => a && b
    case Or => a || b
    case Xor => a != b
    case Nand => !(a && b)
    case Nor => !(a || b)
  }

  /** Precedence: not 2, and/nand 1, or/xor/nor 0, and -1 for any other node. */
  function LogicalOperatorTypePrecedence(node: NodeKind): (p: int)
    ensures -1 <= p <= 2
    ensures p == 2 <==> node.NotOperator?
    ensures p == -1 <==> node.NonLogical?
  {
    match node
    case NotOperator => 2
    case BinaryLogicalOperator(op) =>
      (match op
       case And => 1
       case Nand => 1
       case Or => 0
       case Xor => 0
       case Nor => 0)
    case NonLogical => -1
  }

  /** A not node has one operand and a binary logical node two. */
  function NumberOfChildren(node: NodeKind): (n: nat)
    requires !node.NonLogical?
    ensures n == 1 <==> node.NotOperator?
    ensures n == 2 <==> node.BinaryLogicalOperator?
  {
    if node.NotOperator? then 1 else 2
  }

  /** A binary logical node: its operator is the one field that changes. */
  class BinaryLogicalOperatorNode {
    var typeOfOperator: OperatorType

    constructor (op: OperatorType)
      ensures typeOfOperator == op
    {
      typeOfOperator := op;
    }

    function OperatorType(): (t: OperatorType)
      reads this
      ensures Kind() == BinaryLogicalOperator(t)
    {
      typeOfOperator
    }

    method SetOperatorType(op: OperatorType)
      modifies this
      ensures OperatorType() == op
    {
      typeOfOperator := op;
    }

    function Kind(): (k: NodeKind)
      reads this
      ensures k.BinaryLogicalOperator? && NumberOfChildren(k) == 2
    {
      BinaryLogicalOperator(typeOfOperator)
    }
  }

  // ----- Properties of the table -----

  /** The table has one entry per enumerator, at that enumerator's position. */
  lemma {:induction false} TableCoversEnumeration(op: OperatorType)
    ensures |OperatorNames| == NumberOfOperators
    ensures OperatorNames[Ordinal(op)].op == op
    ensures forall j :: 0 <= j < |OperatorNames| && OperatorNames[j].op == op ==> j == Ordinal(op)
  {
  }

  /** The five binary operator names are pairwise distinct, and none is "not". */
  lemma NamesDistinct()
    ensures forall i, j :: 0 <= i < j < |OperatorNames| ==> OperatorNames[i].name != OperatorNames[j].name
    ensures forall i :: 0 <= i < |OperatorNames| ==> OperatorNames[i].name != NotName
  {
  }

  /** Looking up an operator's own name gives back that operator. */
  lemma LookupOwnName(op: OperatorType)
    ensures IsBinaryLogicalOperator(OperatorName(op), |OperatorName(op)|) == Some(op)
  {
    var name := OperatorName(op);
    NamesDistinct();
    assert name[..|name|] == name;
    var r := IsBinaryLogicalOperator(name, |name|);
    var j :| 0 <= j < |OperatorNames| && OperatorNames[j] == NameEntry(op, name);
    assert r.Some?;
    var k :| 0 <= k < |OperatorNames| && OperatorNames[k] == NameEntry(r.value, name);
    assert j == k;
  }

  /** A successful lookup names an operator whose own name is the token. */
  lemma LookupThenName(name: string, nameLength: nat)
    requires nameLength <= |name|
    ensures var r := IsBinaryLogicalOperator(name, nameLength);
            r.Some? ==> OperatorName(r.value) == name[..nameLength]
  {
    var r := IsBinaryLogicalOperator(name, nameLength);
    if r.Some? {
      var op := r.value;
      TableCoversEnumeration(op);
      var j :| 0 <= j < |OperatorNames| && OperatorNames[j] == NameEntry(op, name[..nameLength]);
      var k :| 0 <= k < |OperatorNames| && OperatorNames[k] == NameEntry(op, OperatorName(op));
      assert j == Ordinal(op) && k == Ordinal(op);
    }
  }

  /** "not" is not a binary logical operator. */
  lemma NotIsNotBinary()
    ensures IsBinaryLogicalOperator(NotName, |NotName|) == None
  {
    NamesDistinct();
    assert NotName[..|NotName|] == NotName;
  }

  /** Every operator name, with a space on each side and a terminator, fits the buffer. */
  lemma NamesFitBuffer(op: OperatorType)
    ensures |OperatorName(op)| <= 4 && |OperatorName(op)| + 2 + 1 <= SizeOfNameBuffer
    ensures |NotName| + 2 + 1 <= SizeOfNameBuffer
  {
    TableCoversEnumeration(op);
    var k :| 0 <= k < |OperatorNames| && OperatorNames[k] == NameEntry(op, OperatorName(op));
  }

  // ----- Properties of precedence and evaluation -----

  /** not binds tighter than and/nand, which bind tighter than or/xor/nor; other nodes get -1. */
  lemma PrecedenceOrder(op: OperatorType)
    ensures LogicalOperatorTypePrecedence(NotOperator) == 2
    ensures LogicalOperatorTypePrecedence(BinaryLogicalOperator(op)) == 1 <==> op == And || op == Nand
    ensures LogicalOperatorTypePrecedence(BinaryLogicalOperator(op)) == 0 <==> op == Or || op == Xor || op == Nor
    ensures LogicalOperatorTypePrecedence(NonLogical) == -1
    ensures LogicalOperatorTypePrecedence(NonLogical) < LogicalOperatorTypePrecedence(BinaryLogicalOperator(op))
              < LogicalOperatorTypePrecedence(NotOperator)
  {
  }

  /** Truth table of each connective, rows (false,false), (false,true), (true,false), (true,true). */
  function TruthTable(op: OperatorType): (t: seq<bool>)
    ensures |t| == 4
  {
    match op
    case And => [false, false, false, true]
    case Or => [false, true, true, true]
    case Xor => [false, true, true, false]
    case Nand => [true, true, true, false]
    case Nor => [true, false, false, false]
  }

  /** Nand and nor negate and and or; every connective is symmetric. */
  lemma EvaluateNegationsAndSymmetry(op: OperatorType, a: bool, b: bool)
    ensures Evaluate(Nand, a, b) == !Evaluate(And, a, b)
    ensures Evaluate(Nor, a, b) == !Evaluate(Or, a, b)
    ensures Evaluate(op, a, b) == Evaluate(op, b, a)
  {
  }
}
