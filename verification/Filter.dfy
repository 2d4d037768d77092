/** The filter language and its evaluation on one document (`src/filter.rs`). */
module Filter {
  import opened Documents
  import Order

  datatype CmpOp = Eq | Ne | Gt | Gte | Lt | Lte

  /** A scalar operand.  `RefNew` stands for `{"$ref_new": field}`, which only conditional writes use. */
  datatype FilterValue = VString(s: string) | VNumber(n: Number) | VBool(b: bool) | VNull | RefNew(field: string)

  datatype FilterExpr =
    | And(subs: seq<FilterExpr>)
    | Or(subs: seq<FilterExpr>)
    | Cmp(field: string, op: CmpOp, value: FilterValue)

  datatype Ordering = Lesser | Same | Greater

  function CompareReals(a: real, b: real): Ordering {
    if a < b then Lesser else if a == b then Same else Greater
  }

  function CompareStrings(a: string, b: string): Ordering {
    if Order.Less(a, b) then Lesser else if a == b then Same else Greater
  }

  function BoolReal(b: bool): real {
    if b then 1.0 else 0.0
  }

  /** `compare_values`: booleans order as 0 and 1, also against numbers. */
  function CompareValues(lhs: FilterValue, rhs: FilterValue): Option<Ordering> {
    match (lhs, rhs)
    case (VNumber(a), VNumber(b)) => Some(CompareReals(a.AsReal(), b.AsReal()))
    case (VString(a), VString(b)) => Some(CompareStrings(a, b))
    case (VBool(a), VBool(b)) => Some(CompareReals(BoolReal(a), BoolReal(b)))
    case (VNumber(a), VBool(b)) => Some(CompareReals(a.AsReal(), BoolReal(b)))
    case (VBool(a), VNumber(b)) => Some(CompareReals(BoolReal(a), b.AsReal()))
    case _ => None
  }

  predicate Ordered(ord: Option<Ordering>, op: CmpOp) {
    match op
    case Gt => ord == Some(Greater)
    case Gte => ord == Some(Greater) || ord == Some(Same)
    case Lt => ord == Some(Lesser)
    case Lte => ord == Some(Lesser) || ord == Some(Same)
    case _ => false
  }

  /** Equality of operands: `f64` equality on numbers, so the two zeros are equal. */
  predicate SameValue(a: FilterValue, b: FilterValue) {
    if a.VNumber? && b.VNumber? then a.n.AsReal() == b.n.AsReal() else a == b
  }

  function AttrToFilterValue(v: Value): Option<FilterValue> {
    match v
    case Null => None
    case Text(s) => Some(VString(s))
    case Bool(b) => Some(VBool(b))
    case Num(n) => Some(VNumber(n))
    case Compound(_) => None
  }

  /** Field `id` is the document's id; other fields are attributes. */
  function DocFieldValue(doc: Document, field: string): Option<FilterValue> {
    if field == "id" then Some(VString(doc.id))
    else if field in doc.attributes then AttrToFilterValue(doc.attributes[field])
    else None
  }

  function ResolveRhs(rhs: FilterValue, newDoc: Option<Document>, refNewNull: bool): Option<FilterValue> {
    match rhs
    case RefNew(field) =>
      if refNewNull then Some(VNull)
      else if newDoc.None? then None
      else DocFieldValue(newDoc.value, field)
    case _ => Some(rhs)
  }

  predicate EvalCmp(doc: Document, field: string, op: CmpOp, value: FilterValue, newDoc: Option<Document>,
                    refNewNull: bool)
  {
    var lhs := DocFieldValue(doc, field);
    var rhs := ResolveRhs(value, newDoc, refNewNull);
    match op
    case Eq =>
      if rhs.None? then false
      else if lhs.None? then rhs.value.VNull?
      else !rhs.value.VNull? && SameValue(lhs.value, rhs.value)
    case Ne =>
      if lhs.None? then rhs != Some(VNull)
      else if rhs.None? then false
      else rhs.value.VNull? || !SameValue(lhs.value, rhs.value)
    case _ =>
      lhs.Some? && rhs.Some? && Ordered(CompareValues(lhs.value, rhs.value), op)
  }

  /** `eval_filter_with_new`. */
  predicate EvalWithNew(expr: FilterExpr, doc: Document, newDoc: Option<Document>, refNewNull: bool) {
    match expr
    case And(subs) => forall sub :: sub in subs ==> EvalWithNew(sub, doc, newDoc, refNewNull)
    case Or(subs) => exists sub :: sub in subs && EvalWithNew(sub, doc, newDoc, refNewNull)
    case Cmp(field, op, value) => EvalCmp(doc, field, op, value, newDoc, refNewNull)
  }

  /** `eval_filter`. */
  predicate Eval(expr: FilterExpr, doc: Document) {
    EvalWithNew(expr, doc, None, false)
  }
}
