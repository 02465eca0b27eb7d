/** Context field declarations (`src/builder/config.rs`): the type expression and the default
    expression are built by two separate loops over the dimensions. Base names are those of
    section 6.4.2 of IEC 61131-3:2013 or names of Rust types. */
module ContextTypes {
  import opened Basics
  import opened Text

  // ---------------------------------------------------------------- expressions

  datatype Type = Named(name: string) | ArrayOf(elem: Type, size: nat) | Boxed(inner: Type)

  datatype Expr =
    | Literal(text: string)
    | Repeat(value: Expr, size: nat)     // [value; size]
    | FromFn                             // ::std::array::from_fn(|_| <_>::default())
    | Elements(items: seq<Expr>)         // [item, item, ...]
    | BoxNew(value: Expr)                // Box::new(value)
    | DefaultOf                          // <_>::default()

  datatype Dim = Dim(size: nat, boxed: bool)

  datatype Decl = Plain(name: string) | Array(base: string, dims: seq<Dim>)

  function ParseIecType(tp: string): string {
    if tp == "BOOL" then "bool"
    else if tp == "BYTE" || tp == "USINT" then "u8"
    else if tp == "WORD" || tp == "UINT" then "u16"
    else if tp == "DWORD" || tp == "UDINT" then "u32"
    else if tp == "LWORD" || tp == "ULINT" then "u64"
    else if tp == "SINT" then "i8"
    else if tp == "INT" then "i16"
    else if tp == "DINT" then "i32"
    else if tp == "LINT" then "i64"
    else if tp == "REAL" then "f32"
    else if tp == "LREAL" then "f64"
    else tp
  }

  const INTEGERS: set<string> := {"u8", "u16", "u32", "u64", "usize", "i8", "i16", "i32", "i64", "isize"}

  function BaseVal(tp: string): Option<string> {
    if tp == "bool" then Some("false")
    else if tp in INTEGERS then Some("0")
    else if tp == "f32" || tp == "f64" then Some("0.0")
    else None
  }

  /** The widths of the elementary types in the order of the standard. */
  datatype IecWidth = Short | Normal | Double | Long

  function IntegerPrefix(w: IecWidth): string {
    match w case Short => "S" case Normal => "" case Double => "D" case Long => "L"
  }

  function BitString(w: IecWidth): string {
    match w case Short => "BYTE" case Normal => "WORD" case Double => "DWORD" case Long => "LWORD"
  }

  function Bits(w: IecWidth): string {
    match w case Short => "8" case Normal => "16" case Double => "32" case Long => "64"
  }

  /** Signed integers, unsigned integers and bit strings of all widths, and the other three types. */
  lemma IecTypes(w: IecWidth)
    ensures ParseIecType(IntegerPrefix(w) + "INT") == "i" + Bits(w)
    ensures ParseIecType("U" + IntegerPrefix(w) + "INT") == "u" + Bits(w)
    ensures ParseIecType(BitString(w)) == "u" + Bits(w)
    ensures ParseIecType("BOOL") == "bool" && ParseIecType("REAL") == "f32" && ParseIecType("LREAL") == "f64"
  {
    IecSigned(w);
    IecUnsigned(w);
    hide ParseIecType;
    assert ParseIecType(BitString(w)) == "u" + Bits(w) by { IecBits(w); }
    assert ParseIecType("BOOL") == "bool" && ParseIecType("REAL") == "f32" && ParseIecType("LREAL") == "f64" by {
      IecOthers();
    }
  }

  lemma IecSigned(w: IecWidth)
    ensures ParseIecType(IntegerPrefix(w) + "INT") == "i" + Bits(w)
  {
    var name := match w case Short => "SINT" case Normal => "INT" case Double => "DINT" case Long => "LINT";
    var tp := match w case Short => "i8" case Normal => "i16" case Double => "i32" case Long => "i64";
    assert ParseIecType(name) == tp;
    hide ParseIecType;
    assert IntegerPrefix(w) + "INT" == name && "i" + Bits(w) == tp;
  }

  lemma IecUnsigned(w: IecWidth)
    ensures ParseIecType("U" + IntegerPrefix(w) + "INT") == "u" + Bits(w)
  {
    var name := match w case Short => "USINT" case Normal => "UINT" case Double => "UDINT" case Long => "ULINT";
    var tp := match w case Short => "u8" case Normal => "u16" case Double => "u32" case Long => "u64";
    assert ParseIecType(name) == tp;
    hide ParseIecType;
    assert "U" + IntegerPrefix(w) + "INT" == name && "u" + Bits(w) == tp;
  }

  lemma IecBits(w: IecWidth)
    ensures ParseIecType(BitString(w)) == "u" + Bits(w)
  {
    match w
    case Short => assert "u" + "8" == "u8";
    case Normal => assert "u" + "16" == "u16";
    case Double => assert "u" + "32" == "u32";
    case Long => assert "u" + "64" == "u64";
  }

  lemma IecOthers()
    ensures ParseIecType("BOOL") == "bool" && ParseIecType("REAL") == "f32" && ParseIecType("LREAL") == "f64"
  {
  }

  const IEC_NAMES: seq<string> := [
    "BOOL", "BYTE", "WORD", "DWORD", "LWORD", "SINT", "INT", "DINT", "LINT", "USINT", "UINT", "UDINT", "ULINT",
    "REAL", "LREAL"]

  /** Any other name stands for itself. */
  lemma OtherNames(tp: string)
    requires tp !in IEC_NAMES
    ensures ParseIecType(tp) == tp
  {
    assert IEC_NAMES[0] == "BOOL" && IEC_NAMES[1] == "BYTE" && IEC_NAMES[2] == "WORD" && IEC_NAMES[3] == "DWORD";
    assert IEC_NAMES[4] == "LWORD" && IEC_NAMES[5] == "SINT" && IEC_NAMES[6] == "INT" && IEC_NAMES[7] == "DINT";
    assert IEC_NAMES[8] == "LINT" && IEC_NAMES[9] == "USINT" && IEC_NAMES[10] == "UINT" && IEC_NAMES[11] == "UDINT";
    assert IEC_NAMES[12] == "ULINT" && IEC_NAMES[13] == "REAL" && IEC_NAMES[14] == "LREAL";
  }

  /** The literal of a type is its zero; integers of all widths, floats and bool have one. */
  lemma ZeroLiterals(w: IecWidth)
    ensures BaseVal("i" + Bits(w)) == BaseVal("u" + Bits(w)) == Some("0")
    ensures BaseVal("usize") == BaseVal("isize") == Some("0")
    ensures BaseVal("f32") == BaseVal("f64") == Some("0.0") && BaseVal("bool") == Some("false")
  {
    match w
    case Short => assert "i" + "8" == "i8" && "u" + "8" == "u8";
    case Normal => assert "i" + "16" == "i16" && "u" + "16" == "u16";
    case Double => assert "i" + "32" == "i32" && "u" + "32" == "u32";
    case Long => assert "i" + "64" == "i64" && "u" + "64" == "u64";
  }

  const LITERAL_NAMES: set<string> := {
    "bool", "u8", "u16", "u32", "u64", "usize", "i8", "i16", "i32", "i64", "isize", "f32", "f64"}

  /** No other type has a literal. */
  lemma OtherLiterals(tp: string)
    ensures BaseVal(tp).Some? ==> tp in LITERAL_NAMES
  {
  }

  // ---------------------------------------------------------------- the two loops

  function BoxType(t: Type, boxed: bool): Type {
    if boxed then Boxed(t) else t
  }

  function BoxExpr(e: Expr, boxed: bool): Expr {
    if boxed then BoxNew(e) else e
  }

  /** The type after the dimensions, the last one outermost. */
  function TypeOfDims(base: string, dims: seq<Dim>): Type {
    if dims == [] then Named(base)
    else
      var d := dims[|dims| - 1];
      BoxType(ArrayOf(TypeOfDims(base, dims[..|dims| - 1]), d.size), d.boxed)
  }

  function FirstDefault(base: string, d: Dim): Expr {
    BoxExpr(match BaseVal(base) case Some(v) => Repeat(Literal(v), d.size) case None => FromFn, d.boxed)
  }

  function DefaultOfDims(base: string, dims: seq<Dim>): Expr
    requires dims != []
  {
    var d := dims[|dims| - 1];
    if |dims| == 1 then FirstDefault(base, d)
    else
      BoxExpr(Elements(Copies(DefaultOfDims(base, dims[..|dims| - 1]), d.size)), d.boxed)
  }

  function Copies(e: Expr, n: nat): (es: seq<Expr>)
    ensures |es| == n && forall i :: 0 <= i < n ==> es[i] == e
  {
    if n == 0 then [] else Copies(e, n - 1) + [e]
  }

  /** The type of a declaration; an array without dimensions has none. */
  function TypeOf(decl: Decl): Option<Type> {
    match decl
    case Plain(n) => Some(Named(ParseIecType(n)))
    case Array(b, dims) => if dims == [] then None else Some(TypeOfDims(ParseIecType(b), dims))
  }

  function DefaultFor(decl: Decl): Option<Expr> {
    match decl
    case Plain(_) => Some(DefaultOf)
    case Array(b, dims) => if dims == [] then None else Some(DefaultOfDims(ParseIecType(b), dims))
  }

  /** `parse_type` after trimming. The accumulator starts as the empty string, here `None`, and
      stays so without dimensions. */
  method BuildType(decl: Decl) returns (result: Option<Type>)
    ensures result == TypeOf(decl)
  {
    if decl.Plain? {
      return Some(Named(ParseIecType(decl.name)));
    }
    var base, dims := ParseIecType(decl.base), decl.dims;
    result := None;
    var i := 0;
    while i < |dims|
      invariant 0 <= i <= |dims|
      invariant result == if i == 0 then None else Some(TypeOfDims(base, dims[..i]))
    {
      var d := dims[i];
      if result == None {
        result := Some(if d.boxed then Boxed(ArrayOf(Named(base), d.size)) else ArrayOf(Named(base), d.size));
      } else if d.boxed {
        result := Some(Boxed(ArrayOf(result.value, d.size)));
      } else {
        result := Some(ArrayOf(result.value, d.size));
      }
      i := i + 1;
      assert dims[..i][..i - 1] == dims[..i - 1];
    }
    assert dims[..i] == dims;
  }

  /** `generate_default` after trimming. */
  method BuildDefault(decl: Decl) returns (result: Option<Expr>)
    ensures result == DefaultFor(decl)
  {
    if decl.Plain? {
      return Some(DefaultOf);
    }
    var base, dims := ParseIecType(decl.base), decl.dims;
    result := None;
    var i := 0;
    while i < |dims|
      invariant 0 <= i <= |dims|
      invariant result == if i == 0 then None else Some(DefaultOfDims(base, dims[..i]))
    {
      var d := dims[i];
      if result == None {
        var value := if BaseVal(base).Some? then Repeat(Literal(BaseVal(base).value), d.size) else FromFn;
        result := Some(if d.boxed then BoxNew(value) else value);
      } else {
        var items: seq<Expr> := [];
        var k := 0;
        while k < d.size
          invariant 0 <= k <= d.size && items == Copies(result.value, k)
        {
          items := items + [result.value];
          k := k + 1;
        }
        result := Some(if d.boxed then BoxNew(Elements(items)) else Elements(items));
      }
      i := i + 1;
      assert dims[..i][..i - 1] == dims[..i - 1];
    }
    assert dims[..i] == dims;
  }

  // ---------------------------------------------------------------- typing

  predicate LiteralHas(text: string, name: string) {
    || (text == "false" && name == "bool")
    || (text == "0" && name in INTEGERS)
    || (text == "0.0" && (name == "f32" || name == "f64"))
  }

  /** The typing rules of the expressions the generator emits. `FromFn` and `DefaultOf` take any
      array and any type, given that the element and the type implement `Default`. */
  predicate HasType(e: Expr, t: Type) {
    match e
    case Literal(s) => t.Named? && LiteralHas(s, t.name)
    case Repeat(x, n) => t.ArrayOf? && t.size == n && HasType(x, t.elem)
    case FromFn => t.ArrayOf?
    case Elements(xs) => t.ArrayOf? && t.size == |xs| && forall i :: 0 <= i < |xs| ==> HasType(xs[i], t.elem)
    case BoxNew(x) => t.Boxed? && HasType(x, t.inner)
    case DefaultOf => true
  }

  lemma BaseValHasType(base: string)
    ensures BaseVal(base).Some? ==> LiteralHas(BaseVal(base).value, base)
  {
  }

  /** The innermost dimension, whatever the base. */
  lemma FirstHasType(base: string, d: Dim, elem: Type)
    ensures HasType(FirstDefault(base, d), BoxType(ArrayOf(elem, d.size), d.boxed))
            <==> (BaseVal(base).Some? ==> elem.Named? && LiteralHas(BaseVal(base).value, elem.name))
  {
    hide BaseVal, LiteralHas;
    var a := ArrayOf(elem, d.size);
    if BaseVal(base).Some? {
      var e := Literal(BaseVal(base).value);
      assert HasType(e, elem) <==> elem.Named? && LiteralHas(BaseVal(base).value, elem.name);
      assert HasType(Repeat(e, d.size), a) <==> HasType(e, elem);
      assert HasType(BoxNew(Repeat(e, d.size)), Boxed(a)) <==> HasType(Repeat(e, d.size), a);
    } else {
      assert HasType(FromFn, a);
      assert HasType(BoxNew(FromFn), Boxed(a));
    }
  }

  lemma OneDim(base: string, dims: seq<Dim>)
    requires |dims| == 1
    ensures TypeOfDims(base, dims) == BoxType(ArrayOf(Named(base), dims[0].size), dims[0].boxed)
    ensures DefaultOfDims(base, dims) == FirstDefault(base, dims[0])
    ensures Product(dims) == dims[0].size
  {
    assert dims[..|dims| - 1] == [];
    assert TypeOfDims(base, []) == Named(base) && Product([]) == 1;
  }

  /** For any number of plain and boxed dimensions the default has the declared type. */
  lemma {:induction false} DefaultHasType(base: string, dims: seq<Dim>)
    requires dims != []
    ensures HasType(DefaultOfDims(base, dims), TypeOfDims(base, dims))
  {
    BaseValHasType(base);
    if |dims| > 1 {
      hide BaseVal;
      DefaultHasType(base, dims[..|dims| - 1]);
    } else {
      hide BaseVal, LiteralHas, HasType, FirstDefault;
      OneDim(base, dims);
      FirstHasType(base, dims[0], Named(base));
    }
  }

  /** The dimensions of an array type, the outermost first. */
  function Dimensions(t: Type): seq<Dim> {
    match t
    case Named(_) => []
    case ArrayOf(e, n) => [Dim(n, false)] + Dimensions(e)
    case Boxed(ArrayOf(e, n)) => [Dim(n, true)] + Dimensions(e)
    case Boxed(_) => []
  }

  function Innermost(t: Type): Type {
    match t
    case Named(_) => t
    case ArrayOf(e, _) => Innermost(e)
    case Boxed(x) => Innermost(x)
  }

  function Backwards(dims: seq<Dim>): seq<Dim> {
    if dims == [] then [] else [dims[|dims| - 1]] + Backwards(dims[..|dims| - 1])
  }

  /** The declared type has the written dimensions, the last one outermost, over the named base. */
  lemma {:induction false} TypeDimensions(base: string, dims: seq<Dim>)
    ensures Dimensions(TypeOfDims(base, dims)) == Backwards(dims)
    ensures Innermost(TypeOfDims(base, dims)) == Named(base)
  {
    if dims != [] {
      TypeDimensions(base, dims[..|dims| - 1]);
    }
  }

  /** The shape of a type: its boxes and array sizes. */
  predicate SameShape(a: Type, b: Type) {
    match (a, b)
    case (Named(_), Named(_)) => true
    case (ArrayOf(x, n), ArrayOf(y, m)) => n == m && SameShape(x, y)
    case (Boxed(x), Boxed(y)) => SameShape(x, y)
    case _ => false
  }

  /** Types of one shape have the same dimensions over one base or another. */
  lemma {:induction false} ShapeIsDimensions(a: Type, b: Type)
    requires SameShape(a, b)
    ensures Dimensions(a) == Dimensions(b) && Innermost(a).Named? && Innermost(b).Named?
  {
    match (a, b)
    case (Named(_), Named(_)) =>
    case (ArrayOf(x, n), ArrayOf(y, m)) => ShapeIsDimensions(x, y);
    case (Boxed(x), Boxed(y)) =>
      ShapeIsDimensions(x, y);
      if x.ArrayOf? {
        ShapeIsDimensions(x.elem, y.elem);
      }
  }

  lemma FirstFixesShape(base: string, d: Dim, t: Type)
    requires BaseVal(base).Some? && HasType(FirstDefault(base, d), t)
    ensures SameShape(t, BoxType(ArrayOf(Named(base), d.size), d.boxed))
  {
    hide BaseVal, LiteralHas;
    var a := if d.boxed then t.inner else t;
    assert HasType(Repeat(Literal(BaseVal(base).value), d.size), a);
    assert HasType(Literal(BaseVal(base).value), a.elem);
    assert SameShape(a.elem, Named(base));
    assert SameShape(a, ArrayOf(Named(base), d.size));
  }

  /** Over a base with a literal and without empty dimensions, the default pins the type down to
      the width of the base: nothing of another shape would be accepted. */
  lemma {:induction false} DefaultFixesShape(base: string, dims: seq<Dim>, t: Type)
    requires dims != [] && BaseVal(base).Some? && forall i :: 0 <= i < |dims| ==> dims[i].size > 0
    requires HasType(DefaultOfDims(base, dims), t)
    ensures SameShape(t, TypeOfDims(base, dims))
  {
    hide BaseVal, LiteralHas;
    var d := dims[|dims| - 1];
    var a := if d.boxed then t.inner else t;
    if |dims| > 1 {
      var e := DefaultOfDims(base, dims[..|dims| - 1]);
      var items := Copies(e, d.size);
      assert HasType(items[0], a.elem);
      DefaultFixesShape(base, dims[..|dims| - 1], a.elem);
    } else {
      OneDim(base, dims);
      FirstFixesShape(base, d, t);
    }
  }

  /** So whatever type the default has, it has the written dimensions. */
  lemma DefaultFixesDimensions(base: string, dims: seq<Dim>, t: Type)
    requires dims != [] && BaseVal(base).Some? && forall i :: 0 <= i < |dims| ==> dims[i].size > 0
    requires HasType(DefaultOfDims(base, dims), t)
    ensures Dimensions(t) == Backwards(dims)
  {
    hide BaseVal, HasType, DefaultOfDims, Dimensions, SameShape;
    DefaultFixesShape(base, dims, t);
    ShapeIsDimensions(t, TypeOfDims(base, dims));
    TypeDimensions(base, dims);
  }

  // ---------------------------------------------------------------- leaves

  /** Scalars an expression of a type initialises. */
  function Leaves(e: Expr, t: Type): nat
    requires HasType(e, t)
  {
    match e
    case Literal(_) => 1
    case Repeat(x, n) => n * Leaves(x, t.elem)
    case FromFn => t.size
    case Elements(xs) => LeavesOf(xs, t.elem)
    case BoxNew(x) => Leaves(x, t.inner)
    case DefaultOf => 1
  }

  function LeavesOf(xs: seq<Expr>, t: Type): nat
    requires forall i :: 0 <= i < |xs| ==> HasType(xs[i], t)
  {
    if xs == [] then 0 else LeavesOf(xs[..|xs| - 1], t) + Leaves(xs[|xs| - 1], t)
  }

  function Product(dims: seq<Dim>): nat {
    if dims == [] then 1 else Product(dims[..|dims| - 1]) * dims[|dims| - 1].size
  }

  lemma {:induction false} LeavesOfCopies(e: Expr, n: nat, t: Type)
    requires HasType(e, t)
    ensures LeavesOf(Copies(e, n), t) == n * Leaves(e, t)
  {
    hide HasType, Leaves;
    if n > 0 {
      LeavesOfCopies(e, n - 1, t);
      assert Copies(e, n)[..n - 1] == Copies(e, n - 1);
      assert n * Leaves(e, t) == (n - 1) * Leaves(e, t) + Leaves(e, t);
    }
  }

  lemma FirstLeaves(base: string, d: Dim)
    ensures var t := BoxType(ArrayOf(Named(base), d.size), d.boxed);
            HasType(FirstDefault(base, d), t) && Leaves(FirstDefault(base, d), t) == d.size
  {
    BaseValHasType(base);
    FirstHasType(base, d, Named(base));
    hide BaseVal, LiteralHas;
    var t := ArrayOf(Named(base), d.size);
    if BaseVal(base).Some? {
      var e := Literal(BaseVal(base).value);
      assert HasType(e, Named(base)) && Leaves(e, Named(base)) == 1;
      assert HasType(Repeat(e, d.size), t) && Leaves(Repeat(e, d.size), t) == d.size * 1;
    } else {
      assert Leaves(FromFn, t) == d.size;
    }
  }

  /** The default initialises as many scalars as the dimensions multiply to. */
  lemma {:induction false} LeafCount(base: string, dims: seq<Dim>)
    requires dims != []
    ensures HasType(DefaultOfDims(base, dims), TypeOfDims(base, dims))
    ensures Leaves(DefaultOfDims(base, dims), TypeOfDims(base, dims)) == Product(dims)
  {
    DefaultHasType(base, dims);
    var front, d := dims[..|dims| - 1], dims[|dims| - 1];
    if |dims| > 1 {
      hide BaseVal, LiteralHas;
      LeafCount(base, front);
      LeavesOfCopies(DefaultOfDims(base, front), d.size, TypeOfDims(base, front));
      assert d.size * Product(front) == Product(front) * d.size;
    } else {
      OneDim(base, dims);
      FirstLeaves(base, d);
    }
  }

  // ---------------------------------------------------------------- struct arrays

  /** A nested map under a key `name[n]`: the field has type `[Sub; n]`, but its default is
      generated from the key. The struct name never is one of the literal types. */
  lemma StructArrayDefault(name: string, sub: string, d: Dim)
    requires BaseVal(sub) == None
    ensures HasType(DefaultOfDims(ParseIecType(name), [d]), BoxType(ArrayOf(Named(sub), d.size), d.boxed))
            <==> BaseVal(ParseIecType(name)) == None
  {
    LiteralNeedsBase(sub);
    var base := ParseIecType(name);
    hide LiteralHas, ParseIecType, BaseVal, HasType, FirstDefault;
    OneDim(base, [d]);
    FirstHasType(base, d, Named(sub));
  }

  lemma LiteralNeedsBase(sub: string)
    requires BaseVal(sub) == None
    ensures forall text: string :: !LiteralHas(text, sub)
  {
  }

  /** A struct array whose key is a type name is generated ill typed. */
  lemma StructArrayNamedLikeAType()
    ensures !HasType(DefaultOfDims(ParseIecType("INT"), [Dim(4, false)]), ArrayOf(Named("ContextInt"), 4))
  {
    assert BaseVal("ContextInt") == None;
    StructArrayDefault("INT", "ContextInt", Dim(4, false));
  }

  // ---------------------------------------------------------------- declaration text

  /** The white space of Unicode, which `trim` cuts off. */
  predicate IsSpace(c: char) {
    || '\U{0009}' <= c <= '\U{000D}' || c == ' ' || c == '\U{0085}' || c == '\U{00A0}' || c == '\U{1680}'
    || '\U{2000}' <= c <= '\U{200A}' || c == '\U{2028}' || c == '\U{2029}' || c == '\U{202F}'
    || c == '\U{205F}' || c == '\U{3000}'
  }

  function TrimStart(s: string): string {
    if s != "" && IsSpace(s[0]) then TrimStart(s[1..]) else s
  }

  function TrimEnd(s: string): string {
    if s != "" && IsSpace(s[|s| - 1]) then TrimEnd(s[..|s| - 1]) else s
  }

  function Trim(s: string): string {
    TrimEnd(TrimStart(s))
  }

  function WithoutUnderscores(s: string): string {
    if s == "" then "" else (if s[0] == '_' then "" else [s[0]]) + WithoutUnderscores(s[1..])
  }

  /** One piece between brackets: the closing bracket is cut off, then a trailing `!`. */
  function ParseDim(d: string): Option<Dim> {
    if d == "" then None
    else
      var sizeText := WithoutUnderscores(Trim(d[..|d| - 1]));
      var boxed := sizeText != "" && sizeText[|sizeText| - 1] == '!';
      var digits := if boxed then sizeText[..|sizeText| - 1] else sizeText;
      match ParseUint(digits, MAX64)
      case None => None
      case Some(n) => Some(Dim(n, boxed))
  }

  function ParseDims(parts: seq<string>): Option<seq<Dim>> {
    if parts == [] then Some([])
    else
      match (ParseDim(parts[0]), ParseDims(parts[1..]))
      case (Some(d), Some(ds)) => Some([d] + ds)
      case _ => None
  }

  /** The common front of both functions; `None` is the panic on a size that does not parse. */
  function ParseDecl(t: string): Option<Decl> {
    var tp := Trim(t);
    if tp != "" && tp[|tp| - 1] == ']' && tp[0] != '[' then
      var parts := Split(tp, '[');
      match ParseDims(parts[1..])
      case None => None
      case Some(dims) => Some(Array(parts[0], dims))
    else Some(Plain(tp))
  }

  /** A declaration that parses has dimensions exactly if it has a bracket to open one. */
  lemma ParsedArrayHasDims(t: string)
    requires ParseDecl(t).Some? && ParseDecl(t).value.Array?
    ensures ParseDecl(t).value.dims != [] <==> '[' in Trim(t)
  {
    var tp := Trim(t);
    if '[' in tp {
      SplitHasSeparator(tp, '[');
    } else {
      SplitWhole(tp, '[');
    }
    DimsLength(Split(tp, '[')[1..]);
  }

  /** A field of the context struct, from the text of its declaration: the type and the default are
      built from it separately. Nothing is built from a text that only closes a bracket, and a size
      that does not parse is a panic. */
  method GenerateField(t: string) returns (parses: bool, tp: Option<Type>, default: Option<Expr>)
    ensures parses <==> ParseDecl(t).Some?
    ensures parses ==> (tp.Some? <==> default.Some?)
    ensures parses ==> (tp.None? <==> ParseDecl(t).value.Array? && '[' !in Trim(t))
    ensures tp.Some? && default.Some? ==> parses && HasType(default.value, tp.value)
  {
    hide Trim, Split, ParseDims, BaseVal, ParseIecType, TypeOfDims, DefaultOfDims;
    var decl := ParseDecl(t);
    if decl == None {
      return false, None, None;
    }
    parses := true;
    tp := BuildType(decl.value);
    default := BuildDefault(decl.value);
    if decl.value.Array? {
      ParsedArrayHasDims(t);
      if decl.value.dims != [] {
        DefaultHasType(ParseIecType(decl.value.base), decl.value.dims);
      }
    }
  }

  lemma {:induction false} SplitHasSeparator(s: string, c: char)
    requires c in s
    ensures |Split(s, c)| > 1
  {
    if s[0] != c {
      SplitHasSeparator(s[1..], c);
    }
  }

  lemma {:induction false} DimsLength(parts: seq<string>)
    requires ParseDims(parts).Some?
    ensures |ParseDims(parts).value| == |parts|
  {
    if parts != [] {
      DimsLength(parts[1..]);
    }
  }

  function DimText(d: Dim): string {
    Dec(d.size) + (if d.boxed then "!]" else "]")
  }

  function DimsText(dims: seq<Dim>): string {
    if dims == [] then "" else "[" + DimText(dims[0]) + DimsText(dims[1..])
  }

  lemma DigitsAreBare(s: string)
    requires s != "" && AllDigits(s)
    ensures Trim(s) == s && WithoutUnderscores(s) == s
    ensures Trim(s + "!") == s + "!" && WithoutUnderscores(s + "!") == s + "!"
  {
    NoUnderscores(s);
    NoUnderscores(s + "!");
  }

  lemma {:induction false} NoUnderscores(s: string)
    requires '_' !in s
    ensures WithoutUnderscores(s) == s
  {
    if s != "" {
      NoUnderscores(s[1..]);
      assert [s[0]] + s[1..] == s;
    }
  }

  lemma ParsePrintedDim(d: Dim)
    requires d.size <= MAX64
    ensures ParseDim(DimText(d)) == Some(d)
    ensures '[' !in DimText(d)
  {
    var s := Dec(d.size);
    NotInDigits(s, '[');
    if d.boxed {
      ParseBoxedDim(d.size);
    } else {
      ParseUnboxedDim(d.size);
    }
    hide ParseDim, Dec;
  }

  lemma ParseUnboxedDim(n: nat)
    requires n <= MAX64
    ensures ParseDim(Dec(n) + "]") == Some(Dim(n, false))
  {
    var s := Dec(n);
    DigitsAreBare(s);
    ParseDec(n, MAX64);
    assert IsDigit(s[|s| - 1]);
    hide Trim, WithoutUnderscores, ParseUint, Dec, AllDigits, ParseDim;
    assert (s + "]")[..|s|] == s;
    ParseCutDim(s + "]", s);
  }

  /** The parser on a piece of which `sizeText` is left after cutting, trimming and removal of the
      underscores. */
  lemma ParseCutDim(d: string, sizeText: string)
    requires d != "" && WithoutUnderscores(Trim(d[..|d| - 1])) == sizeText && sizeText != ""
    ensures var boxed := sizeText[|sizeText| - 1] == '!';
            var n := ParseUint(if boxed then sizeText[..|sizeText| - 1] else sizeText, MAX64);
            ParseDim(d) == if n.Some? then Some(Dim(n.value, boxed)) else None
  {
    hide Trim, WithoutUnderscores, ParseUint;
  }

  lemma ParseBoxedDim(n: nat)
    requires n <= MAX64
    ensures ParseDim(Dec(n) + "!]") == Some(Dim(n, true))
  {
    var s := Dec(n);
    DigitsAreBare(s);
    ParseDec(n, MAX64);
    hide Trim, WithoutUnderscores, ParseUint, Dec, AllDigits, ParseDim;
    assert (s + "!]")[..|s| + 1] == s + "!";
    assert (s + "!")[..|s|] == s;
    ParseCutDim(s + "!]", s + "!");
  }

  /** White space is the blank, the tabulators and the ends of line with 19 others beyond ASCII, and no
      digit or sign. */
  lemma SpacesAre()
    ensures forall c :: IsSpace(c) <==>
              var u := c as int;
              || 9 <= u <= 13 || u == 32 || u == 133 || u == 160 || u == 5760 || 8192 <= u <= 8202
              || u == 8232 || u == 8233 || u == 8239 || u == 8287 || u == 12288
    ensures IsSpace(' ') && IsSpace('\t') && IsSpace('\n') && IsSpace('\r')
    ensures forall c :: IsDigit(c) ==> !IsSpace(c)
    ensures !IsSpace('_') && !IsSpace('!') && !IsSpace('[') && !IsSpace(']')
  {
  }

  predicate AllSpaces(s: string) {
    forall i :: 0 <= i < |s| ==> IsSpace(s[i])
  }

  lemma {:induction false} TrimStartSpaces(a: string, s: string)
    requires AllSpaces(a) && s != "" && !IsSpace(s[0])
    ensures TrimStart(a + s) == s
  {
    if a == "" {
      assert a + s == s;
    } else {
      TrimStartSpaces(a[1..], s);
      assert (a + s)[1..] == a[1..] + s;
    }
  }

  lemma {:induction false} TrimEndSpaces(s: string, b: string)
    requires AllSpaces(b) && s != "" && !IsSpace(s[|s| - 1])
    ensures TrimEnd(s + b) == s
  {
    if b == "" {
      assert s + b == s;
    } else {
      TrimEndSpaces(s, b[..|b| - 1]);
      assert (s + b)[..|s + b| - 1] == s + b[..|b| - 1];
    }
  }

  lemma TrimSpaces(a: string, s: string, b: string)
    requires AllSpaces(a) && AllSpaces(b) && s != "" && !IsSpace(s[0]) && !IsSpace(s[|s| - 1])
    ensures Trim(a + s + b) == s
  {
    assert a + s + b == a + (s + b) && (s + b)[0] == s[0];
    hide IsSpace;
    TrimStartSpaces(a, s + b);
    TrimEndSpaces(s, b);
  }

  lemma {:induction false} UnderscoresApart(a: string, b: string)
    ensures WithoutUnderscores(a + b) == WithoutUnderscores(a) + WithoutUnderscores(b)
  {
    if a == "" {
      assert a + b == b;
    } else {
      UnderscoresApart(a[1..], b);
      assert (a + b)[1..] == a[1..] + b;
      var first := if a[0] == '_' then "" else [a[0]];
      assert WithoutUnderscores(a + b) == first + WithoutUnderscores(a[1..] + b);
      assert WithoutUnderscores(a) == first + WithoutUnderscores(a[1..]);
      hide WithoutUnderscores;
      Associate(first, WithoutUnderscores(a[1..]), WithoutUnderscores(b));
    }
  }

  /** Spaces around a dimension, and underscores between its digits, are ignored. */
  lemma LooseDim(before: string, a: string, b: string, boxed: bool, after: string)
    requires AllSpaces(before) && AllSpaces(after) && a != "" && AllDigits(a) && AllDigits(b) && Value(a + b) <= MAX64
    ensures ParseDim(before + (a + "_" + b + (if boxed then "!" else "")) + after + "]")
            == Some(Dim(Value(a + b), boxed))
  {
    var mark := if boxed then "!" else "";
    var s := a + "_" + b + mark;
    var d := before + s + after + "]";
    assert d[..|d| - 1] == before + s + after;
    LooseText(a, b, mark);
    hide IsSpace, Trim, WithoutUnderscores, ParseUint, ParseDim, Value;
    if s[|s| - 1] == '_' {
      SpacesAre();
    }
    TrimLoose(before, a, b, mark, after);
    ParseCutDim(d, a + b + mark);
    ParseUintSyntax(a + b, MAX64);
    assert (a + b + "!")[..|a + b|] == a + b && a + b + "" == a + b;
    assert IsDigit((a + b)[|a + b| - 1]);
  }

  lemma TrimLoose(before: string, a: string, b: string, mark: string, after: string)
    requires AllSpaces(before) && AllSpaces(after) && a != "" && AllDigits(a) && AllDigits(b) && mark in {"", "!"}
    ensures Trim(before + (a + "_" + b + mark) + after) == a + "_" + b + mark
  {
    var s := a + "_" + b + mark;
    hide IsSpace;
    SpacesAre();
    assert s[0] == a[0] && IsDigit(a[0]);
    assert s[|s| - 1] == '!' || s[|s| - 1] == '_' || IsDigit(s[|s| - 1]);
    TrimSpaces(before, s, after);
  }

  lemma LooseText(a: string, b: string, mark: string)
    requires AllDigits(a) && AllDigits(b) && mark in {"", "!"}
    ensures WithoutUnderscores(a + "_" + b + mark) == a + b + mark
  {
    assert WithoutUnderscores("_") == "" by {
      assert "_"[1..] == "" && WithoutUnderscores("") == "";
    }
    hide WithoutUnderscores;
    NoUnderscores(a);
    NoUnderscores(b);
    NoUnderscores(mark);
    UnderscoresApart(a + "_" + b, mark);
    UnderscoresApart(a + "_", b);
    UnderscoresApart(a, "_");
    assert a + "" == a;
  }

  lemma {:induction false} ParsePrintedDims(base: string, dims: seq<Dim>)
    requires '[' !in base && forall i :: 0 <= i < |dims| ==> dims[i].size <= MAX64
    ensures var parts := Split(base + DimsText(dims), '[');
            parts[0] == base && ParseDims(parts[1..]) == Some(dims)
    decreases |dims|
  {
    hide DimText, ParseDim, Split;
    if dims == [] {
      assert base + DimsText(dims) == base;
      SplitWhole(base, '[');
    } else {
      ParsePrintedDim(dims[0]);
      ParsePrintedDims(DimText(dims[0]), dims[1..]);
      var rest := DimText(dims[0]) + DimsText(dims[1..]);
      SplitFirst(base, '[', rest);
      assert base + DimsText(dims) == base + ['['] + rest;
      FirstDim(Split(rest, '['), dims);
      assert ([base] + Split(rest, '['))[1..] == Split(rest, '[');
    }
  }

  lemma FirstDim(parts: seq<string>, dims: seq<Dim>)
    requires parts != [] && dims != []
    requires ParseDim(parts[0]) == Some(dims[0]) && ParseDims(parts[1..]) == Some(dims[1..])
    ensures ParseDims(parts) == Some(dims)
  {
    hide ParseDim;
    assert [dims[0]] + dims[1..] == dims;
  }

  /** A written declaration is read back with its base name and all its dimensions. */
  lemma DeclText(base: string, dims: seq<Dim>)
    requires base != "" && '[' !in base && !IsSpace(base[0])
    requires dims != [] && forall i :: 0 <= i < |dims| ==> dims[i].size <= MAX64
    ensures ParseDecl(base + DimsText(dims)) == Some(Array(base, dims))
  {
    hide Split, ParseDims, DimsText, Trim, IsSpace;
    var t := base + DimsText(dims);
    DimsTextEnds(dims);
    BracketIsNoSpace();
    NothingToTrim(t);
    ParsePrintedDims(base, dims);
    DeclFromParts(t, base, dims);
  }

  lemma BracketIsNoSpace()
    ensures !IsSpace(']')
  {
  }

  lemma DeclFromParts(t: string, base: string, dims: seq<Dim>)
    requires t != "" && Trim(t) == t && t[|t| - 1] == ']' && t[0] != '['
    requires Split(t, '[')[0] == base && ParseDims(Split(t, '[')[1..]) == Some(dims)
    ensures ParseDecl(t) == Some(Array(base, dims))
  {
    hide Split, ParseDims, Trim;
  }

  lemma NothingToTrim(t: string)
    requires t != "" && !IsSpace(t[0]) && !IsSpace(t[|t| - 1])
    ensures Trim(t) == t
  {
  }

  lemma {:induction false} DimsTextEnds(dims: seq<Dim>)
    requires dims != []
    ensures DimsText(dims) != "" && DimsText(dims)[|DimsText(dims)| - 1] == ']'
  {
    if |dims| > 1 {
      DimsTextEnds(dims[1..]);
    }
  }
}
