/**
 Event signatures (chain/ethereum/src/data_source.rs): printing parameter types and events, the
 lookup of a contract's event by signature, and the topic hash of a handler.

 Keccak is a parameter. The printed form is the one of the section "Events" of the Solidity
 Contract ABI Specification, with an optional `indexed ` in front of a parameter type.
 */
module EventSignatures {
  import opened Common
  import opened EthereumTypes

  datatype ParamType =
    | AddressType
    | BytesType
    | IntType(size: nat)
    | UintType(size: nat)
    | BoolType
    | StringType
    | ArrayType(inner: ParamType)
    | FixedBytesType(size: nat)
    | FixedArrayType(inner: ParamType, length: nat)
    | TupleType(components: seq<ParamType>)

  datatype EventParam = EventParam(name: string, kind: ParamType, indexed: bool)
  datatype Event = Event(name: string, inputs: seq<EventParam>)

  // ---------- Printing ----------

  function Digit(d: nat): (c: char)
    requires d < 10
    ensures '0' <= c <= '9'
  {
    '0' + d as char
  }

  function Decimal(n: nat): (s: string)
    ensures s != [] && forall i :: 0 <= i < |s| ==> '0' <= s[i] <= '9'
  {
    if n < 10 then [Digit(n)] else Decimal(n / 10) + [Digit(n % 10)]
  }

  function TypeSignature(kind: ParamType): string
    decreases kind, 1
  {
    match kind
    case AddressType => "address"
    case BytesType => "bytes"
    case IntType(size) => "int" + Decimal(size)
    case UintType(size) => "uint" + Decimal(size)
    case BoolType => "bool"
    case StringType => "string"
    case ArrayType(inner) => TypeSignature(inner) + "[]"
    case FixedBytesType(size) => "bytes" + Decimal(size)
    case FixedArrayType(inner, length) => TypeSignature(inner) + "[" + Decimal(length) + "]"
    case TupleType(components) => "(" + Join(TypeSignatures(components)) + ")"
  }

  function TypeSignatures(kinds: seq<ParamType>): (r: seq<string>)
    ensures |r| == |kinds|
    decreases kinds, 0
  {
    if kinds == [] then [] else [TypeSignature(kinds[0])] + TypeSignatures(kinds[1..])
  }

  function Join(pieces: seq<string>): string {
    if pieces == [] then "" else if |pieces| == 1 then pieces[0] else pieces[0] + "," + Join(pieces[1..])
  }

  function PlainPieces(inputs: seq<EventParam>): seq<string> {
    Map(inputs, (p: EventParam) => TypeSignature(p.kind))
  }

  function IndexedPiece(p: EventParam): string {
    (if p.indexed then "indexed " else "") + TypeSignature(p.kind)
  }

  function IndexedPieces(inputs: seq<EventParam>): seq<string> {
    Map(inputs, (p: EventParam) => IndexedPiece(p))
  }

  /** `Event(uint256,address)`, without `indexed` hints. */
  function PlainSignature(event: Event): string {
    event.name + "(" + Join(PlainPieces(event.inputs)) + ")"
  }

  /** `Event(indexed uint256,address)`. */
  function IndexedSignature(event: Event): string {
    event.name + "(" + Join(IndexedPieces(event.inputs)) + ")"
  }

  // ---------- Decimal numbers are readable ----------

  function Value(s: string): nat {
    if s == [] then 0
    else Value(s[..|s| - 1]) * 10 + if '0' <= s[|s| - 1] <= '9' then (s[|s| - 1] - '0') as nat else 0
  }

  lemma {:induction false} DecimalReadable(n: nat)
    ensures Value(Decimal(n)) == n
  {
    var s := Decimal(n);
    if n < 10 {
      assert s[..0] == [];
    } else {
      DecimalReadable(n / 10);
      assert s[..|s| - 1] == Decimal(n / 10);
    }
  }

  lemma DecimalInjective(a: nat, b: nat)
    requires Decimal(a) == Decimal(b)
    ensures a == b
  {
    DecimalReadable(a);
    DecimalReadable(b);
  }

  // ---------- Pieces that a comma separates ----------

  function Step(c: char): int {
    if c == '(' then 1 else if c == ')' then -1 else 0
  }

  /** Opened minus closed parentheses. */
  function Depth(s: string): int {
    if s == [] then 0 else Depth(s[..|s| - 1]) + Step(s[|s| - 1])
  }

  lemma {:induction false} DepthAppend(a: string, b: string)
    ensures Depth(a + b) == Depth(a) + Depth(b)
  {
    if b == [] {
      assert a + b == a;
    } else {
      DepthAppend(a, b[..|b| - 1]);
      assert (a + b)[..|a + b| - 1] == a + b[..|b| - 1];
    }
  }

  /** Parentheses balance, and no comma is outside all of them when `top` is 1. */
  ghost predicate Balanced(s: string, top: int) {
    && Depth(s) == 0
    && forall i :: 0 <= i < |s| ==> Depth(s[..i]) >= 0 && (s[i] == ',' ==> Depth(s[..i]) >= top)
  }

  ghost predicate Piece(s: string) {
    s != "" && Balanced(s, 1)
  }

  ghost predicate Pieces(ps: seq<string>) {
    forall i :: 0 <= i < |ps| ==> Piece(ps[i])
  }

  lemma BalancedAppend(a: string, b: string, top: int)
    requires Balanced(a, top) && Balanced(b, top)
    ensures Balanced(a + b, top)
  {
    DepthAppend(a, b);
    forall i | 0 <= i < |a + b| ensures Depth((a + b)[..i]) >= 0 && ((a + b)[i] == ',' ==> Depth((a + b)[..i]) >= top) {
      if i < |a| {
        assert (a + b)[..i] == a[..i];
      } else {
        assert (a + b)[..i] == a + b[..i - |a|];
        DepthAppend(a, b[..i - |a|]);
      }
    }
  }

  predicate Flat(s: string) {
    forall i :: 0 <= i < |s| ==> s[i] != '(' && s[i] != ')' && s[i] != ','
  }

  lemma {:induction false} FlatDepth(s: string)
    requires Flat(s)
    ensures Depth(s) == 0
  {
    if s != [] {
      FlatDepth(s[..|s| - 1]);
    }
  }

  lemma FlatBalanced(s: string)
    requires Flat(s)
    ensures Balanced(s, 1)
  {
    FlatDepth(s);
    forall i | 0 <= i < |s| ensures Depth(s[..i]) == 0 {
      FlatDepth(s[..i]);
    }
  }

  lemma CommaBalanced()
    ensures Balanced(",", 0)
  {
    assert ","[..0] == "";
    assert Depth(",") == Depth(","[..0]) + Step(',');
  }

  lemma {:induction false} JoinBalanced(ps: seq<string>)
    requires Pieces(ps)
    ensures Balanced(Join(ps), 0)
  {
    if ps == [] {
      FlatBalanced("");
    } else if |ps| > 1 {
      JoinBalanced(ps[1..]);
      CommaBalanced();
      BalancedAppend(ps[0], ",", 0);
      BalancedAppend(ps[0] + ",", Join(ps[1..]), 0);
    }
  }

  lemma ParenthesesClose(s: string)
    requires Balanced(s, 0)
    ensures Piece("(" + s + ")")
  {
    var t := "(" + s + ")";
    assert "("[..0] == "" && ")"[..0] == "";
    assert Depth("(") == 1 && Depth(")") == -1;
    DepthAppend("(", s);
    DepthAppend("(" + s, ")");
    forall i | 0 <= i < |t| ensures Depth(t[..i]) >= 0 && (t[i] == ',' ==> Depth(t[..i]) >= 1) {
      if i == 0 {
        assert t[..0] == "";
      } else if i <= |s| {
        assert t[..i] == "(" + s[..i - 1];
        DepthAppend("(", s[..i - 1]);
      } else {
        assert t[..i] == "(" + s;
      }
    }
  }

  /** The three shapes of a printed type: a name with a size, an array of something, a tuple. */
  predicate IsArray(kind: ParamType) {
    kind.ArrayType? || kind.FixedArrayType?
  }

  function Letters(kind: ParamType): string {
    match kind
    case AddressType => "address"
    case BytesType => "bytes"
    case IntType(_) => "int"
    case UintType(_) => "uint"
    case BoolType => "bool"
    case StringType => "string"
    case FixedBytesType(_) => "bytes"
    case _ => ""
  }

  /** The size of a basic type or the length of an array; empty when there is none. */
  function Digits(kind: ParamType): (s: string)
    ensures forall i :: 0 <= i < |s| ==> '0' <= s[i] <= '9'
  {
    match kind
    case IntType(size) => Decimal(size)
    case UintType(size) => Decimal(size)
    case FixedBytesType(size) => Decimal(size)
    case FixedArrayType(_, length) => Decimal(length)
    case _ => ""
  }

  predicate NoDigits(s: string) {
    forall i :: 0 <= i < |s| ==> !('0' <= s[i] <= '9')
  }

  lemma BasicShape(kind: ParamType)
    requires !IsArray(kind) && !kind.TupleType?
    ensures TypeSignature(kind) == Letters(kind) + Digits(kind)
    ensures Letters(kind) != "" && NoDigits(Letters(kind)) && Flat(Letters(kind))
    ensures ' ' !in Letters(kind) && ']' !in Letters(kind)
  {
    LettersShape(kind);
    assert Digits(kind) == "" ==> Letters(kind) + Digits(kind) == Letters(kind);
  }

  lemma LettersShape(kind: ParamType)
    requires !IsArray(kind) && !kind.TupleType?
    ensures Letters(kind) != "" && NoDigits(Letters(kind)) && Flat(Letters(kind))
    ensures ' ' !in Letters(kind) && ']' !in Letters(kind)
  {
  }

  lemma ArrayShape(kind: ParamType)
    requires IsArray(kind)
    ensures TypeSignature(kind) == TypeSignature(kind.inner) + ("[" + Digits(kind) + "]")
  {
    if kind.ArrayType? {
      assert "[" + "" + "]" == "[]";
    } else {
      var t := TypeSignature(kind.inner);
      assert t + "[" + Digits(kind) + "]" == t + ("[" + Digits(kind) + "]");
    }
  }

  lemma {:induction false} TypeSignaturePiece(kind: ParamType)
    ensures Piece(TypeSignature(kind))
    decreases kind, 1
  {
    if IsArray(kind) {
      ArrayShape(kind);
      TypeSignaturePiece(kind.inner);
      var suffix := "[" + Digits(kind) + "]";
      FlatBalanced(suffix);
      BalancedAppend(TypeSignature(kind.inner), suffix, 1);
    } else if kind.TupleType? {
      TypeSignaturesPieces(kind.components);
      JoinBalanced(TypeSignatures(kind.components));
      ParenthesesClose(Join(TypeSignatures(kind.components)));
    } else {
      BasicShape(kind);
      FlatBalanced(Letters(kind) + Digits(kind));
    }
  }

  lemma {:induction false} TypeSignaturesPieces(kinds: seq<ParamType>)
    ensures Pieces(TypeSignatures(kinds))
    decreases kinds, 0
  {
    if kinds != [] {
      TypeSignaturePiece(kinds[0]);
      TypeSignaturesPieces(kinds[1..]);
    }
  }

  // ---------- Printing types is injective ----------

  /** The first piece of a joined list ends at the first comma outside parentheses. */
  lemma FirstPieceNotShorter(ps: seq<string>, qs: seq<string>)
    requires Pieces(ps) && Pieces(qs) && ps != [] && qs != [] && Join(ps) == Join(qs)
    ensures |ps[0]| >= |qs[0]|
  {
    var s, n := Join(ps), |ps[0]|;
    forall i | 0 <= i < |qs[0]| ensures s[i] == ',' ==> Depth(s[..i]) >= 1 {
      assert s[i] == qs[0][i] && s[..i] == qs[0][..i];
    }
    if |ps| > 1 {
      assert s[n] == ',' && s[..n] == ps[0];
      assert Depth(s[..n]) == 0;
    }
  }

  lemma {:induction false} JoinInjective(ps: seq<string>, qs: seq<string>)
    requires Pieces(ps) && Pieces(qs) && Join(ps) == Join(qs)
    ensures ps == qs
  {
    if ps == [] || qs == [] {
      assert ps != [] ==> Piece(ps[0]);
      assert qs != [] ==> Piece(qs[0]);
    } else {
      FirstPieceNotShorter(ps, qs);
      FirstPieceNotShorter(qs, ps);
      var s, n := Join(ps), |ps[0]|;
      assert s[..n] == ps[0] && s[..n] == qs[0];
      if |ps| > 1 {
        assert s[n + 1..] == Join(ps[1..]);
        assert |qs| > 1;
        assert s[n + 1..] == Join(qs[1..]);
        JoinInjective(ps[1..], qs[1..]);
        assert ps == [ps[0]] + ps[1..] && qs == [qs[0]] + qs[1..];
      } else {
        assert |s| == n;
      }
    }
  }

  /** A text without digits followed by digits splits in one way. */
  lemma SplitDigits(a: string, d: string, b: string, e: string)
    requires NoDigits(a) && NoDigits(b) && a + d == b + e
    requires forall i :: 0 <= i < |d| ==> '0' <= d[i] <= '9'
    requires forall i :: 0 <= i < |e| ==> '0' <= e[i] <= '9'
    ensures a == b && d == e
  {
    var s := a + d;
    forall i | 0 <= i < |s| ensures i < |a| <==> !('0' <= s[i] <= '9') {
      assert s[i] == if i < |a| then a[i] else d[i - |a|];
    }
    forall i | 0 <= i < |s| ensures i < |b| <==> !('0' <= s[i] <= '9') {
      assert s[i] == if i < |b| then b[i] else e[i - |b|];
    }
    assert |a| == |b| by {
      assert |a| < |s| ==> '0' <= s[|a|] <= '9';
      assert |b| < |s| ==> '0' <= s[|b|] <= '9';
    }
    assert a == s[..|a|] && b == s[..|a|];
    assert d == s[|a|..] && e == s[|a|..];
  }

  /** So does a text followed by bracketed digits. */
  lemma SplitBrackets(a: string, d: string, b: string, e: string)
    requires a + ("[" + d + "]") == b + ("[" + e + "]")
    requires forall i :: 0 <= i < |d| ==> '0' <= d[i] <= '9'
    requires forall i :: 0 <= i < |e| ==> '0' <= e[i] <= '9'
    ensures a == b && d == e
  {
    var s := a + ("[" + d + "]");
    assert s[|a|] == '[' && s[|b|] == '[';
    forall i | |a| < i < |s| ensures s[i] != '[' {
      assert s[i] == ("[" + d + "]")[i - |a|];
    }
    forall i | |b| < i < |s| ensures s[i] != '[' {
      assert s[i] == ("[" + e + "]")[i - |b|];
    }
    assert a == s[..|a|] && b == s[..|a|];
    assert d == s[|a| + 1..|s| - 1] && e == s[|a| + 1..|s| - 1];
  }

  function LastChar(s: string): char
    requires s != ""
  {
    s[|s| - 1]
  }

  /** The shape can be read off the last character. */
  lemma ShapeOfLastChar(kind: ParamType)
    ensures TypeSignature(kind) != ""
    ensures IsArray(kind) <==> LastChar(TypeSignature(kind)) == ']'
    ensures kind.TupleType? <==> LastChar(TypeSignature(kind)) == ')'
  {
    if IsArray(kind) {
      ArrayShape(kind);
    } else if !kind.TupleType? {
      BasicShape(kind);
      var s := TypeSignature(kind);
      if Digits(kind) == "" {
        assert s == Letters(kind);
        assert LastChar(s) in Letters(kind);
      } else {
        assert LastChar(s) == Digits(kind)[|Digits(kind)| - 1];
      }
    }
  }

  lemma BasicInjective(a: ParamType, b: ParamType)
    requires !IsArray(a) && !a.TupleType? && !IsArray(b) && !b.TupleType?
    requires TypeSignature(a) == TypeSignature(b)
    ensures a == b
  {
    BasicShape(a);
    BasicShape(b);
    SplitDigits(Letters(a), Digits(a), Letters(b), Digits(b));
    SameLetters(a, b);
    if Digits(a) != "" {
      DecimalInjective(a.size, b.size);
    }
  }

  lemma SameLetters(a: ParamType, b: ParamType)
    requires !IsArray(a) && !a.TupleType? && !IsArray(b) && !b.TupleType?
    requires Letters(a) == Letters(b) && Digits(a) == Digits(b)
    ensures a == b || (a.IntType? && b.IntType?) || (a.UintType? && b.UintType?) ||
            (a.FixedBytesType? && b.FixedBytesType?)
  {
    assert |Letters(a)| == |Letters(b)| && Letters(a)[0] == Letters(b)[0];
  }

  /** Different parameter types, however nested, print differently. */
  lemma {:induction false} TypeSignatureInjective(a: ParamType, b: ParamType)
    requires TypeSignature(a) == TypeSignature(b)
    ensures a == b
    decreases a, 1
  {
    ShapeOfLastChar(a);
    ShapeOfLastChar(b);
    if IsArray(a) {
      ArrayShape(a);
      ArrayShape(b);
      SplitBrackets(TypeSignature(a.inner), Digits(a), TypeSignature(b.inner), Digits(b));
      TypeSignatureInjective(a.inner, b.inner);
      if a.FixedArrayType? && b.FixedArrayType? {
        DecimalInjective(a.length, b.length);
      }
    } else if a.TupleType? {
      var ps, qs := TypeSignatures(a.components), TypeSignatures(b.components);
      TypeSignaturesPieces(a.components);
      TypeSignaturesPieces(b.components);
      assert TypeSignature(a)[1..|TypeSignature(a)| - 1] == Join(ps);
      assert TypeSignature(b)[1..|TypeSignature(b)| - 1] == Join(qs);
      JoinInjective(ps, qs);
      TypeSignaturesInjective(a.components, b.components);
    } else {
      BasicInjective(a, b);
    }
  }

  lemma {:induction false} TypeSignaturesInjective(a: seq<ParamType>, b: seq<ParamType>)
    requires TypeSignatures(a) == TypeSignatures(b)
    ensures a == b
    decreases a, 0
  {
    if a != [] {
      assert |TypeSignatures(a)| == |TypeSignatures(b)|;
      var ps, qs := TypeSignatures(a), TypeSignatures(b);
      assert ps[0] == TypeSignature(a[0]) && qs[0] == TypeSignature(b[0]);
      assert ps[1..] == TypeSignatures(a[1..]) && qs[1..] == TypeSignatures(b[1..]);
      TypeSignatureInjective(a[0], b[0]);
      TypeSignaturesInjective(a[1..], b[1..]);
      assert a == [a[0]] + a[1..] && b == [b[0]] + b[1..];
    }
  }

  // ---------- Erasing the hints ----------

  const HINT := "indexed "

  /** `replace("indexed ", "")`: every match from left to right, without overlap. */
  function EraseHints(s: string): string {
    if s == "" then ""
    else if |s| >= |HINT| && s[..|HINT|] == HINT then EraseHints(s[|HINT|..])
    else [s[0]] + EraseHints(s[1..])
  }

  function EraseSpaces(s: string): string {
    Filter(s, (c: char) => c != ' ')
  }

  function Canonical(s: string): string {
    EraseSpaces(EraseHints(s))
  }

  /** No character of the hint, so no match reaches across it. */
  predicate Delimiter(c: char) {
    c == '(' || c == ',' || c == ')'
  }

  predicate NoSpace(s: string) {
    forall i :: 0 <= i < |s| ==> s[i] != ' '
  }

  /** Text without spaces that ends in a delimiter is left alone, whatever follows. */
  lemma {:induction false} EraseHintsSkips(u: string, v: string)
    requires NoSpace(u) && (u == "" || Delimiter(LastChar(u)))
    ensures EraseHints(u + v) == u + EraseHints(v)
  {
    var s := u + v;
    if u == "" {
      assert s == v;
    } else {
      EraseHintsSkips(u[1..], v);
      assert s[1..] == u[1..] + v;
      if |s| >= |HINT| {
        HintDiffers(u, v);
      }
    }
  }

  lemma HintDiffers(u: string, v: string)
    requires NoSpace(u) && u != "" && Delimiter(LastChar(u)) && |u + v| >= |HINT|
    ensures (u + v)[..|HINT|] != HINT
  {
    var k := if |u| <= |HINT| then |u| - 1 else |HINT| - 1;
    HintCharacters(k);
    assert (u + v)[..|HINT|][k] == u[k];
  }

  lemma HintCharacters(k: nat)
    requires k < |HINT|
    ensures !Delimiter(HINT[k]) && (k == |HINT| - 1 ==> HINT[k] == ' ')
  {
  }

  lemma EraseHintsMatch(v: string)
    ensures EraseHints(HINT + v) == EraseHints(v)
  {
    assert (HINT + v)[..|HINT|] == HINT && (HINT + v)[|HINT|..] == v;
  }

  lemma {:induction false} TypeSignatureNoSpace(kind: ParamType)
    ensures NoSpace(TypeSignature(kind))
    decreases kind, 1
  {
    if IsArray(kind) {
      ArrayShape(kind);
      TypeSignatureNoSpace(kind.inner);
    } else if kind.TupleType? {
      TypeSignaturesNoSpace(kind.components);
      JoinNoSpace(TypeSignatures(kind.components));
    } else {
      BasicShape(kind);
    }
  }

  lemma {:induction false} TypeSignaturesNoSpace(kinds: seq<ParamType>)
    ensures forall i :: 0 <= i < |kinds| ==> NoSpace(TypeSignatures(kinds)[i])
    decreases kinds, 0
  {
    if kinds != [] {
      TypeSignatureNoSpace(kinds[0]);
      TypeSignaturesNoSpace(kinds[1..]);
    }
  }

  lemma {:induction false} JoinNoSpace(ps: seq<string>)
    requires forall i :: 0 <= i < |ps| ==> NoSpace(ps[i])
    ensures NoSpace(Join(ps))
  {
    if |ps| > 1 {
      JoinNoSpace(ps[1..]);
    }
  }

  /** Erasing the hints from the parameters, up to and including the closing parenthesis. */
  lemma {:induction false} EraseHintsFromParams(inputs: seq<EventParam>)
    ensures EraseHints(Join(IndexedPieces(inputs)) + ")") == Join(PlainPieces(inputs)) + ")"
  {
    if inputs == [] {
      EraseHintsSkips(")", "");
      assert ")" + "" == ")";
    } else {
      var p, rest := inputs[0], inputs[1..];
      var t := TypeSignature(p.kind);
      TypeSignatureNoSpace(p.kind);
      assert IndexedPieces(inputs)[1..] == IndexedPieces(rest) && PlainPieces(inputs)[1..] == PlainPieces(rest);
      if rest == [] {
        EraseOnePiece(p, ")", "");
        assert IndexedPiece(p) + ")" + "" == IndexedPiece(p) + ")";
      } else {
        EraseHintsFromParams(rest);
        EraseOnePiece(p, ",", Join(IndexedPieces(rest)) + ")");
        assert Join(IndexedPieces(inputs)) + ")" == IndexedPiece(p) + "," + (Join(IndexedPieces(rest)) + ")");
        assert Join(PlainPieces(inputs)) + ")" == t + "," + (Join(PlainPieces(rest)) + ")");
      }
    }
  }

  lemma EraseOnePiece(p: EventParam, end: string, rest: string)
    requires |end| == 1 && Delimiter(end[0])
    ensures EraseHints(IndexedPiece(p) + end + rest) == TypeSignature(p.kind) + end + EraseHints(rest)
  {
    var u := TypeSignature(p.kind) + end;
    TypeSignatureNoSpace(p.kind);
    assert LastChar(u) == end[0];
    EraseHintsSkips(u, rest);
    EraseHintsMatch(u + rest);
    if p.indexed {
      assert IndexedPiece(p) + end + rest == HINT + (u + rest);
    } else {
      assert IndexedPiece(p) == TypeSignature(p.kind);
    }
  }

  lemma EraseHintsFromEvent(event: Event)
    requires NoSpace(event.name)
    ensures EraseHints(IndexedSignature(event)) == PlainSignature(event)
    ensures EraseHints(PlainSignature(event)) == PlainSignature(event)
  {
    var u := event.name + "(";
    assert LastChar(u) == '(';
    var v := Join(IndexedPieces(event.inputs)) + ")";
    EraseHintsSkips(u, v);
    EraseHintsFromParams(event.inputs);
    assert IndexedSignature(event) == u + v;
    assert PlainSignature(event) == u + (Join(PlainPieces(event.inputs)) + ")");
    PlainNoSpace(event);
    EraseHintsSkips(PlainSignature(event), "");
    assert PlainSignature(event) + "" == PlainSignature(event);
  }

  lemma PlainNoSpace(event: Event)
    ensures NoSpace(PlainSignature(event)) <==> NoSpace(event.name)
  {
    forall i | 0 <= i < |event.inputs| ensures NoSpace(PlainPieces(event.inputs)[i]) {
      TypeSignatureNoSpace(event.inputs[i].kind);
    }
    JoinNoSpace(PlainPieces(event.inputs));
    var s := PlainSignature(event);
    if NoSpace(s) {
      forall i | 0 <= i < |event.name| ensures event.name[i] != ' ' {
        assert s[i] == event.name[i];
      }
    }
  }

  /**
   Both forms of a signature have the same canonical form, the plain signature, exactly when the
   name has no space.
   */
  lemma CanonicalIsPlain(event: Event)
    ensures Canonical(IndexedSignature(event)) == PlainSignature(event) <==> NoSpace(event.name)
    ensures NoSpace(event.name) ==> Canonical(PlainSignature(event)) == PlainSignature(event)
  {
    PlainNoSpace(event);
    if NoSpace(event.name) {
      EraseHintsFromEvent(event);
      FilterAll(PlainSignature(event), (c: char) => c != ' ');
    } else {
      var erased := EraseHints(IndexedSignature(event));
      FilterIn(erased, (c: char) => c != ' ', ' ');
      var i :| 0 <= i < |PlainSignature(event)| && PlainSignature(event)[i] == ' ';
      assert ' ' in PlainSignature(event);
    }
  }

  // ---------- Handlers and the contract's events ----------

  datatype EventHandler = EventHandler(event: string, topic0: Option<H256>, handler: string)

  function Topic0(h: EventHandler, keccak: string -> H256): H256 {
    if h.topic0.Some? then h.topic0.value else keccak(Canonical(h.event))
  }

  function IndexOf(s: string, c: char): (r: Option<nat>)
    ensures r.Some? ==> r.value < |s| && s[r.value] == c && c !in s[..r.value]
    ensures r.None? ==> c !in s
  {
    if s == "" then None
    else if s[0] == c then Some(0)
    else
      var r := IndexOf(s[1..], c);
      assert s == [s[0]] + s[1..];
      if r.None? then None
      else
        assert s[..r.value + 1] == [s[0]] + s[1..][..r.value];
        Some(r.value + 1)
  }

  function Find(events: seq<Event>, signature: string): Option<Event> {
    if events == [] then None
    else if IndexedSignature(events[0]) == signature then Some(events[0])
    else Find(events[1..], signature)
  }

  /** The exact signature, or else the plain one of the only event with that name. */
  function ContractEventWithSignature(events: seq<Event>, signature: string): Option<Event> {
    var exact := Find(events, signature);
    if exact.Some? then exact
    else
      var at := IndexOf(signature, '(');
      var name := signature[..if at.Some? then at.value else 0];
      var matching := Filter(events, (e: Event) => e.name == name);
      if |matching| == 1 && PlainSignature(matching[0]) == signature then Some(matching[0]) else None
  }

  lemma {:induction false} FindFinds(events: seq<Event>, signature: string)
    ensures Find(events, signature).Some? ==>
              Find(events, signature).value in events && IndexedSignature(Find(events, signature).value) == signature
    ensures Find(events, signature).None? ==> forall i :: 0 <= i < |events| ==> IndexedSignature(events[i]) != signature
  {
    if events != [] {
      FindFinds(events[1..], signature);
    }
  }

  /**
   Whichever form the manifest uses, the hash that logs are queried with is the hash of the plain
   signature of the very event they are decoded with.
   */
  lemma LookupAgreesWithTopic(events: seq<Event>, h: EventHandler, keccak: string -> H256)
    requires forall i :: 0 <= i < |events| ==> NoSpace(events[i].name)
    requires h.topic0.None?
    ensures var found := ContractEventWithSignature(events, h.event);
            found.Some? ==> found.value in events && Topic0(h, keccak) == keccak(PlainSignature(found.value))
  {
    var found := ContractEventWithSignature(events, h.event);
    if found.Some? {
      FindFinds(events, h.event);
      if Find(events, h.event).None? {
        var at := IndexOf(h.event, '(');
        var name := h.event[..if at.Some? then at.value else 0];
        FilterIn(events, (e: Event) => e.name == name, found.value);
      }
      CanonicalIsPlain(found.value);
    }
  }

  /** The parts of an event that its indexed signature shows. */
  predicate SameShape(a: Event, b: Event) {
    a.name == b.name && |a.inputs| == |b.inputs| &&
    forall i :: 0 <= i < |a.inputs| ==>
             a.inputs[i].kind == b.inputs[i].kind && a.inputs[i].indexed == b.inputs[i].indexed
  }

  lemma IndexedPieceInjective(p: EventParam, q: EventParam)
    requires IndexedPiece(p) == IndexedPiece(q)
    ensures p.kind == q.kind && p.indexed == q.indexed
  {
    TypeSignatureNoSpace(p.kind);
    TypeSignatureNoSpace(q.kind);
    var s := IndexedPiece(p);
    assert p.indexed ==> s[7] == ' ' && s[8..] == TypeSignature(p.kind);
    assert q.indexed ==> s[7] == ' ' && s[8..] == TypeSignature(q.kind);
    assert !p.indexed ==> s == TypeSignature(p.kind);
    assert !q.indexed ==> s == TypeSignature(q.kind);
    TypeSignatureInjective(p.kind, q.kind);
  }

  lemma IndexedPieceIsPiece(p: EventParam)
    ensures Piece(IndexedPiece(p))
  {
    TypeSignaturePiece(p.kind);
    if p.indexed {
      FlatBalanced(HINT);
      BalancedAppend(HINT, TypeSignature(p.kind), 1);
    } else {
      assert IndexedPiece(p) == TypeSignature(p.kind);
    }
  }

  /** The part before the first parenthesis, and the part after it, of a signature. */
  lemma SplitName(a: string, b: string, x: string, y: string)
    requires '(' !in a && '(' !in b && a + "(" + x == b + "(" + y
    ensures a == b && x == y
  {
    var s := a + "(" + x;
    assert s[|a|] == '(' && s[|b|] == '(';
    forall i | 0 <= i < |a| ensures s[i] != '(' {
      assert s[i] == a[i];
    }
    forall i | 0 <= i < |b| ensures s[i] != '(' {
      assert s[i] == b[i];
    }
    assert a == s[..|a|] && b == s[..|a|] && x == s[|a| + 1..] && y == s[|a| + 1..];
  }

  /** An indexed signature determines the event, up to the names of its parameters. */
  lemma IndexedSignatureInjective(a: Event, b: Event)
    requires '(' !in a.name && '(' !in b.name && IndexedSignature(a) == IndexedSignature(b)
    ensures SameShape(a, b)
  {
    var ps, qs := IndexedPieces(a.inputs), IndexedPieces(b.inputs);
    assert IndexedSignature(a) == a.name + "(" + (Join(ps) + ")");
    assert IndexedSignature(b) == b.name + "(" + (Join(qs) + ")");
    SplitName(a.name, b.name, Join(ps) + ")", Join(qs) + ")");
    assert Join(ps) == (Join(ps) + ")")[..|Join(ps)|] && Join(qs) == (Join(qs) + ")")[..|Join(qs)|];
    forall i | 0 <= i < |ps| ensures Piece(ps[i]) { IndexedPieceIsPiece(a.inputs[i]); }
    forall i | 0 <= i < |qs| ensures Piece(qs[i]) { IndexedPieceIsPiece(b.inputs[i]); }
    JoinInjective(ps, qs);
    forall i | 0 <= i < |a.inputs|
      ensures a.inputs[i].kind == b.inputs[i].kind && a.inputs[i].indexed == b.inputs[i].indexed
    {
      assert ps[i] == qs[i];
      IndexedPieceInjective(a.inputs[i], b.inputs[i]);
    }
  }

  /** Looking up the indexed signature of one of the contract's events finds that event, or its twin. */
  lemma ExactLookupFinds(events: seq<Event>, event: Event)
    requires event in events && forall i :: 0 <= i < |events| ==> '(' !in events[i].name
    ensures var found := ContractEventWithSignature(events, IndexedSignature(event));
            found.Some? && SameShape(found.value, event)
  {
    FindFinds(events, IndexedSignature(event));
    var i :| 0 <= i < |events| && events[i] == event;
    assert IndexedSignature(events[i]) == IndexedSignature(event);
    IndexedSignatureInjective(Find(events, IndexedSignature(event)).value, event);
  }
}
