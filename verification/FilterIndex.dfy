/** The attribute filter index (`src/index/filter.rs`). */
module FilterIndex {
  import opened Documents
  import opened Replay
  import opened IndexDelta
  import opened Filter
  import Order

  /** Canonical key of a scalar value.  Keys of different values differ, and the two zeros have
      different keys: they print as `0` and `-0`. */
  datatype ValueKey = KString(s: string) | KBool(b: bool) | KNumber(n: Number) | KNull

  function KeyOf(v: FilterValue): ValueKey
    requires !v.RefNew?
  {
    match v
    case VString(s) => KString(s)
    case VBool(b) => KBool(b)
    case VNumber(n) => KNumber(n)
    case VNull => KNull
  }

  function ParseKey(k: ValueKey): Option<FilterValue> {
    match k
    case KString(s) => Some(VString(s))
    case KBool(b) => Some(VBool(b))
    case KNumber(n) => Some(VNumber(n))
    case KNull => None
  }

  /** `cmp_values` of the index: like types only. */
  predicate IndexCompares(lhs: FilterValue, rhs: FilterValue, op: CmpOp) {
    match (lhs, rhs)
    case (VNumber(a), VNumber(b)) => Ordered(Some(CompareReals(a.AsReal(), b.AsReal())), op)
    case (VString(a), VString(b)) => Ordered(Some(CompareStrings(a, b)), op)
    case (VBool(a), VBool(b)) => Ordered(Some(CompareReals(BoolReal(a), BoolReal(b))), op)
    case _ => false
  }

  /** Fields of a document that are indexed: the schema's, or all of them when it names none. */
  predicate IsIndexed(fields: seq<string>, field: string) {
    fields == [] || field in fields
  }

  predicate HasKey(doc: Document, fields: seq<string>, field: string) {
    IsIndexed(fields, field) && field in doc.attributes && AttrToFilterValue(doc.attributes[field]).Some?
  }

  /** The key under which a document is posted for each indexed field it has a scalar for. */
  function DocKeys(doc: Document, fields: seq<string>): map<string, ValueKey> {
    map field | field in doc.attributes && HasKey(doc, fields, field) ::
      KeyOf(AttrToFilterValue(doc.attributes[field]).value)
  }

  type Postings = map<string, map<ValueKey, set<Id>>>

  datatype Segment = Segment(allDocIds: set<Id>, postings: Postings)

  predicate Posted(p: Postings, field: string, key: ValueKey, id: Id) {
    field in p && key in p[field] && id in p[field][key]
  }

  /** The segment is exactly the inverted form of the indexed documents, with no empty lists. */
  ghost predicate Represents(seg: Segment, idx: Indexed, fields: seq<string>) {
    && seg.allDocIds == idx.Keys
    && (forall f, k, id :: Posted(seg.postings, f, k, id) <==>
          id in idx && f in DocKeys(idx[id], fields) && DocKeys(idx[id], fields)[f] == k)
    && NoEmptyLists(seg.postings)
  }

  ghost predicate NoEmptyLists(p: Postings) {
    forall f :: f in p ==> p[f] != map[] && forall k :: k in p[f] ==> p[f][k] != {}
  }

  function WithPosting(p: Postings, f: string, k: ValueKey, id: Id): Postings {
    var byKey := if f in p then p[f] else map[];
    var ids := if k in byKey then byKey[k] else {};
    p[f := byKey[k := ids + {id}]]
  }

  lemma WithPostingPosts(p: Postings, f: string, k: ValueKey, id: Id, f': string, k': ValueKey, id': Id)
    ensures Posted(WithPosting(p, f, k, id), f', k', id') <==> Posted(p, f', k', id') || (f, k, id) == (f', k', id')
  {
  }

  lemma WithPostingNoEmpty(p: Postings, f: string, k: ValueKey, id: Id)
    requires NoEmptyLists(p)
    ensures NoEmptyLists(WithPosting(p, f, k, id))
  {
    var p' := WithPosting(p, f, k, id);
    forall g | g in p' ensures p'[g] != map[] && forall j :: j in p'[g] ==> p'[g][j] != {} {
      if g == f {
        assert k in p'[f];
      }
    }
  }

  /** Dropping one id, then the lists and fields that became empty. */
  function WithoutId(p: Postings, id: Id): Postings {
    var shrunk := map f | f in p :: (map k | k in p[f] && p[f][k] - {id} != {} :: p[f][k] - {id});
    map f | f in shrunk && shrunk[f] != map[] :: shrunk[f]
  }

  lemma WithoutIdPosts(p: Postings, id: Id, f: string, k: ValueKey, id': Id)
    ensures Posted(WithoutId(p, id), f, k, id') <==> Posted(p, f, k, id') && id' != id
  {
    if Posted(p, f, k, id') && id' != id {
      assert id' in p[f][k] - {id};
      var byKey := map j | j in p[f] && p[f][j] - {id} != {} :: p[f][j] - {id};
      assert k in byKey;
      assert byKey != map[];
    }
  }

  lemma WithoutIdNoEmpty(p: Postings, id: Id)
    ensures NoEmptyLists(WithoutId(p, id))
  {
  }

  // ----- Matching -----

  /** No `$ref_new` operand where the source asks for its key. */
  predicate Keyable(expr: FilterExpr) {
    match expr
    case And(subs) => forall sub :: sub in subs ==> Keyable(sub)
    case Or(subs) => forall sub :: sub in subs ==> Keyable(sub)
    case Cmp(_, op, value) => (op.Eq? || op.Ne?) ==> !value.RefNew?
  }

  /** Does the index find the key in the relation to the operand? */
  predicate KeyOrdered(k: ValueKey, value: FilterValue, op: CmpOp) {
    ParseKey(k).Some? && IndexCompares(ParseKey(k).value, value, op)
  }

  function MatchCmp(seg: Segment, field: string, op: CmpOp, value: FilterValue): set<Id>
    requires (op.Eq? || op.Ne?) ==> !value.RefNew?
  {
    var byKey := if field in seg.postings then seg.postings[field] else map[];
    match op
    case Eq => if KeyOf(value) in byKey then byKey[KeyOf(value)] else {}
    case Ne => seg.allDocIds - (if KeyOf(value) in byKey then byKey[KeyOf(value)] else {})
    case _ =>
      set k, id | k in byKey && id in byKey[k] && KeyOrdered(k, value, op) :: id
  }

  function Matching(seg: Segment, expr: FilterExpr): set<Id>
    requires Keyable(expr)
    decreases expr, 1
  {
    match expr
    case And(subs) => if subs == [] then seg.allDocIds else MatchingAll(seg, expr, subs)
    case Or(subs) => MatchingAny(seg, expr, subs)
    case Cmp(field, op, value) => MatchCmp(seg, field, op, value)
  }

  function MatchingAll(seg: Segment, expr: FilterExpr, subs: seq<FilterExpr>): set<Id>
    requires subs != [] && forall sub :: sub in subs ==> sub < expr && Keyable(sub)
    decreases expr, 0, |subs|
  {
    var last := |subs| - 1;
    assert subs[last] in subs && forall sub :: sub in subs[..last] ==> sub in subs;
    if last == 0 then Matching(seg, subs[0]) else MatchingAll(seg, expr, subs[..last]) * Matching(seg, subs[last])
  }

  function MatchingAny(seg: Segment, expr: FilterExpr, subs: seq<FilterExpr>): set<Id>
    requires forall sub :: sub in subs ==> sub < expr && Keyable(sub)
    decreases expr, 0, |subs|
  {
    if subs == [] then {}
    else
      var last := |subs| - 1;
      assert subs[last] in subs && forall sub :: sub in subs[..last] ==> sub in subs;
      MatchingAny(seg, expr, subs[..last]) + Matching(seg, subs[last])
  }

  /** What the index can tell about one document: evaluation on its keys. */
  predicate KeyCmp(keys: map<string, ValueKey>, field: string, op: CmpOp, value: FilterValue)
    requires (op.Eq? || op.Ne?) ==> !value.RefNew?
  {
    match op
    case Eq => field in keys && keys[field] == KeyOf(value)
    case Ne => !(field in keys && keys[field] == KeyOf(value))
    case _ => field in keys && KeyOrdered(keys[field], value, op)
  }

  predicate KeyEval(keys: map<string, ValueKey>, expr: FilterExpr)
    requires Keyable(expr)
  {
    match expr
    case And(subs) => forall sub :: sub in subs ==> KeyEval(keys, sub)
    case Or(subs) => exists sub :: sub in subs && KeyEval(keys, sub)
    case Cmp(field, op, value) => KeyCmp(keys, field, op, value)
  }

  lemma MatchCmpPointwise(seg: Segment, idx: Indexed, fields: seq<string>, field: string, op: CmpOp, value: FilterValue,
                          id: Id)
    requires Represents(seg, idx, fields) && ((op.Eq? || op.Ne?) ==> !value.RefNew?)
    ensures id in MatchCmp(seg, field, op, value) <==> id in idx && KeyCmp(DocKeys(idx[id], fields), field, op, value)
  {
    if op.Eq? || op.Ne? {
      assert Posted(seg.postings, field, KeyOf(value), id) <==>
        id in idx && field in DocKeys(idx[id], fields) && DocKeys(idx[id], fields)[field] == KeyOf(value);
    } else {
      if id in MatchCmp(seg, field, op, value) {
        var k :| k in seg.postings[field] && id in seg.postings[field][k] && KeyOrdered(k, value, op);
        assert Posted(seg.postings, field, k, id);
      }
      if id in idx && field in DocKeys(idx[id], fields) {
        assert Posted(seg.postings, field, DocKeys(idx[id], fields)[field], id);
      }
    }
  }

  /** The index answers a filter document by document: an id matches exactly when it is indexed and
      the filter holds of its keys. */
  lemma {:induction false} MatchingPointwise(seg: Segment, idx: Indexed, fields: seq<string>, expr: FilterExpr, id: Id)
    requires Represents(seg, idx, fields) && Keyable(expr)
    ensures id in Matching(seg, expr) <==> id in idx && KeyEval(DocKeys(idx[id], fields), expr)
    decreases expr, 1
  {
    match expr
    case And(subs) =>
      if subs != [] { MatchingAllPointwise(seg, idx, fields, expr, subs, id); }
    case Or(subs) => MatchingAnyPointwise(seg, idx, fields, expr, subs, id);
    case Cmp(field, op, value) => MatchCmpPointwise(seg, idx, fields, field, op, value, id);
  }

  predicate EveryHolds(keys: map<string, ValueKey>, subs: seq<FilterExpr>)
    requires forall sub :: sub in subs ==> Keyable(sub)
  {
    forall sub :: sub in subs ==> KeyEval(keys, sub)
  }

  lemma EveryHoldsSplit(keys: map<string, ValueKey>, subs: seq<FilterExpr>)
    requires subs != [] && forall sub :: sub in subs ==> Keyable(sub)
    ensures EveryHolds(keys, subs) <==> EveryHolds(keys, subs[..|subs| - 1]) && KeyEval(keys, subs[|subs| - 1])
  {
    var last := |subs| - 1;
    assert subs == subs[..last] + [subs[last]];
  }

  lemma {:induction false} MatchingAllPointwise(seg: Segment, idx: Indexed, fields: seq<string>, expr: FilterExpr,
                                                subs: seq<FilterExpr>, id: Id)
    requires Represents(seg, idx, fields)
    requires subs != [] && forall sub :: sub in subs ==> sub < expr && Keyable(sub)
    ensures id in MatchingAll(seg, expr, subs) <==> id in idx && EveryHolds(DocKeys(idx[id], fields), subs)
    decreases expr, 0, |subs|
  {
    var last := |subs| - 1;
    assert subs[last] in subs && forall sub :: sub in subs[..last] ==> sub in subs;
    MatchingPointwise(seg, idx, fields, subs[last], id);
    if last > 0 {
      MatchingAllPointwise(seg, idx, fields, expr, subs[..last], id);
    }
    if id in idx {
      EveryHoldsSplit(DocKeys(idx[id], fields), subs);
    }
  }

  lemma {:induction false} MatchingAnyPointwise(seg: Segment, idx: Indexed, fields: seq<string>, expr: FilterExpr,
                                                subs: seq<FilterExpr>, id: Id)
    requires Represents(seg, idx, fields)
    requires forall sub :: sub in subs ==> sub < expr && Keyable(sub)
    ensures id in MatchingAny(seg, expr, subs) <==>
      id in idx && exists sub :: sub in subs && KeyEval(DocKeys(idx[id], fields), sub)
    decreases expr, 0, |subs|
  {
    if subs != [] {
      var last := |subs| - 1;
      assert subs[last] in subs && forall sub :: sub in subs[..last] ==> sub in subs;
      MatchingPointwise(seg, idx, fields, subs[last], id);
      MatchingAnyPointwise(seg, idx, fields, expr, subs[..last], id);
      assert subs == subs[..last] + [subs[last]];
    }
  }

  // ----- When the index and the scan agree -----

  /** What a comparison says of a field's value, or of a missing one. */
  predicate CmpHolds(v: Option<FilterValue>, op: CmpOp, value: FilterValue)
    requires (op.Eq? || op.Ne?) ==> !value.RefNew?
  {
    match op
    case Eq => if v.None? then value.VNull? else !value.VNull? && SameValue(v.value, value)
    case Ne => if v.None? then !value.VNull? else value.VNull? || !SameValue(v.value, value)
    case _ => v.Some? && !value.RefNew? && Ordered(CompareValues(v.value, value), op)
  }

  /** The values on which the index errs: a missing one compared with null, the other zero in an equality,
      a boolean ordered against a number that it stands in the relation to, or the reverse. */
  predicate Confused(v: Option<FilterValue>, op: CmpOp, value: FilterValue) {
    if op.Eq? || op.Ne? then
      if value.VNull? then v.None?
      else v.Some? && v.value != value && v.value.VNumber? && value.VNumber? && v.value.n.AsReal() == value.n.AsReal()
    else
      && v.Some? && ((v.value.VNumber? && value.VBool?) || (v.value.VBool? && value.VNumber?))
      && Ordered(CompareValues(v.value, value), op)
  }

  /** The value the index has for a field. */
  function IndexedValue(doc: Document, fields: seq<string>, field: string): Option<FilterValue> {
    if HasKey(doc, fields, field) then AttrToFilterValue(doc.attributes[field]) else None
  }

  /** The documents on which the index answers a comparison as the scan does.  An indexed attribute must not
      be one the index errs on; without an index on the field the comparison must not tell the value from a
      missing one; and `id` is looked up as an attribute, whose answer must happen to be right. */
  predicate CmpAgrees(doc: Document, fields: seq<string>, field: string, op: CmpOp, value: FilterValue)
    requires (op.Eq? || op.Ne?) ==> !value.RefNew?
  {
    var v := DocFieldValue(doc, field);
    if !IsIndexed(fields, field) then CmpHolds(v, op, value) <==> op.Ne?
    else if field != "id" then !Confused(v, op, value)
    else
      var seen := IndexedValue(doc, fields, field);
      CmpHolds(v, op, value) <==> CmpHolds(seen, op, value) != Confused(seen, op, value)
  }

  lemma ScanSays(doc: Document, field: string, op: CmpOp, value: FilterValue)
    requires (op.Eq? || op.Ne?) ==> !value.RefNew?
    ensures EvalCmp(doc, field, op, value, None, false) <==> CmpHolds(DocFieldValue(doc, field), op, value)
  {
  }

  lemma IndexSays(doc: Document, fields: seq<string>, field: string, op: CmpOp, value: FilterValue)
    requires (op.Eq? || op.Ne?) ==> !value.RefNew?
    ensures var seen := IndexedValue(doc, fields, field);
      KeyCmp(DocKeys(doc, fields), field, op, value) <==> CmpHolds(seen, op, value) != Confused(seen, op, value)
  {
    assert field in DocKeys(doc, fields) <==> HasKey(doc, fields, field);
  }

  /** Index and scan give the same answer for a document exactly if it is one of those. */
  lemma CmpAgreesExactly(doc: Document, fields: seq<string>, field: string, op: CmpOp, value: FilterValue)
    requires (op.Eq? || op.Ne?) ==> !value.RefNew?
    ensures KeyCmp(DocKeys(doc, fields), field, op, value) == EvalCmp(doc, field, op, value, None, false)
      <==> CmpAgrees(doc, fields, field, op, value)
  {
    ScanSays(doc, field, op, value);
    IndexSays(doc, fields, field, op, value);
  }

  /** All comparisons of the filter agree on the document. */
  predicate ExprAgrees(doc: Document, fields: seq<string>, expr: FilterExpr)
    requires Keyable(expr)
  {
    match expr
    case And(subs) => forall sub :: sub in subs ==> ExprAgrees(doc, fields, sub)
    case Or(subs) => forall sub :: sub in subs ==> ExprAgrees(doc, fields, sub)
    case Cmp(field, op, value) => CmpAgrees(doc, fields, field, op, value)
  }

  /** Then so does the filter. */
  lemma {:induction false} AgreeingFilter(doc: Document, fields: seq<string>, expr: FilterExpr)
    requires Keyable(expr) && ExprAgrees(doc, fields, expr)
    ensures KeyEval(DocKeys(doc, fields), expr) == Eval(expr, doc)
  {
    match expr
    case And(subs) =>
      forall sub | sub in subs ensures KeyEval(DocKeys(doc, fields), sub) == Eval(sub, doc) {
        AgreeingFilter(doc, fields, sub);
      }
    case Or(subs) =>
      forall sub | sub in subs ensures KeyEval(DocKeys(doc, fields), sub) == Eval(sub, doc) {
        AgreeingFilter(doc, fields, sub);
      }
    case Cmp(field, op, value) => CmpAgreesExactly(doc, fields, field, op, value);
  }

  /** Does some boolean, read as 0 or 1, stand in the relation to this number? */
  predicate SomeBoolOrdered(n: Number, op: CmpOp) {
    Ordered(Some(CompareReals(0.0, n.AsReal())), op) || Ordered(Some(CompareReals(1.0, n.AsReal())), op)
  }

  /** No string sorts before the empty one. */
  predicate BelowEmptyString(op: CmpOp, value: FilterValue) {
    op.Lt? && value == VString("")
  }

  predicate NoOperand(value: FilterValue) {
    value.VNull? || value.RefNew?
  }

  /** Comparisons of an indexed attribute that the index answers as the scan does: equality with an
      operand other than null and zero; an ordering against a string, against nothing, or against a
      number that no boolean stands in the relation to. */
  predicate ExactOnAttribute(op: CmpOp, value: FilterValue) {
    if op.Eq? || op.Ne? then
      !value.VNull? && !value.RefNew? && !(value.VNumber? && value.n.AsReal() == 0.0)
    else
      match value
      case VBool(_) => false
      case VNumber(n) => !SomeBoolOrdered(n, op)
      case _ => true
  }

  /** Likewise for any field.  An attribute that is not indexed is right only where no attribute can
      match, and `id` only where neither an id nor an attribute called `id` can. */
  predicate ExactCmp(fields: seq<string>, field: string, op: CmpOp, value: FilterValue) {
    var indexed := IsIndexed(fields, field);
    if field != "id" then
      if indexed then ExactOnAttribute(op, value)
      else !op.Eq? && !op.Ne? && (NoOperand(value) || BelowEmptyString(op, value))
    else if indexed then
      || NoOperand(value) || BelowEmptyString(op, value)
      || (op.Gt? && value == VBool(true)) || (op.Lt? && value == VBool(false))
    else !value.VString? || BelowEmptyString(op, value)
  }

  lemma ExactCmpAgrees(doc: Document, fields: seq<string>, field: string, op: CmpOp, value: FilterValue)
    requires ExactCmp(fields, field, op, value) && ((op.Eq? || op.Ne?) ==> !value.RefNew?)
    ensures KeyCmp(DocKeys(doc, fields), field, op, value) == EvalCmp(doc, field, op, value, None, false)
  {
  }

  function SmallestAbove(s: string): string {
    s + ['a']
  }

  lemma {:induction false} AboveIsAbove(s: string)
    ensures Order.Less(s, SmallestAbove(s)) && !Order.Less(SmallestAbove(s), s) && s != SmallestAbove(s)
  {
    if s != "" {
      AboveIsAbove(s[1..]);
      assert SmallestAbove(s)[1..] == SmallestAbove(s[1..]);
    }
  }

  /** A number in the relation to this number. */
  function NumberOrdered(n: real, op: CmpOp): Value {
    Num(Finite(match op
      case Gt => n + 1.0
      case Lt => n - 1.0
      case _ => n))
  }

  /** An attribute value on which a comparison outside `ExactOnAttribute` gets different answers. */
  function AttributeWitness(op: CmpOp, value: FilterValue): Value {
    match value
    case VNumber(n) =>
      if op.Eq? || op.Ne? then Num(if n.NegativeZero? then Finite(0.0) else NegativeZero)
      else Bool(!Ordered(Some(CompareReals(0.0, n.AsReal())), op))
    case VBool(b) => NumberOrdered(BoolReal(b), op)
    case _ => Null
  }

  /** A value in the relation, or equal. */
  function Related(op: CmpOp, value: FilterValue): Value {
    match value
    case VNumber(n) => if op.Eq? || op.Ne? then Num(n) else NumberOrdered(n.AsReal(), op)
    case VBool(b) => Bool(if op.Gt? then true else if op.Lt? then false else b)
    case VString(s) => Text(if op.Gt? then SmallestAbove(s) else if op.Lt? then "" else s)
    case _ => Null
  }

  function RelatedToAny(op: CmpOp, value: FilterValue): Value {
    if value.VBool? && !op.Eq? && !op.Ne? then NumberOrdered(BoolReal(value.b), op) else Related(op, value)
  }

  /** A document on which a comparison outside `ExactCmp` gets different answers. */
  function Witness(fields: seq<string>, field: string, op: CmpOp, value: FilterValue): Document {
    if field != "id" then
      var attribute := if IsIndexed(fields, field) then AttributeWitness(op, value) else RelatedToAny(op, value);
      Document("w", map[field := attribute])
    else if value.VString? then
      var text := Related(op, value);
      Document(if text.Text? then text.s else "", map[])
    else Document("w", map["id" := Related(op, value)])
  }

  lemma InexactIndexedDisagrees(fields: seq<string>, field: string, op: CmpOp, value: FilterValue)
    requires field != "id" && IsIndexed(fields, field) && !ExactOnAttribute(op, value) && !value.RefNew?
    ensures KeyCmp(DocKeys(Witness(fields, field, op, value), fields), field, op, value)
         != EvalCmp(Witness(fields, field, op, value), field, op, value, None, false)
  {
    var doc := Witness(fields, field, op, value);
    assert field in DocKeys(doc, fields) <==> HasKey(doc, fields, field);
  }

  lemma InexactUnindexedDisagrees(fields: seq<string>, field: string, op: CmpOp, value: FilterValue)
    requires field != "id" && !IsIndexed(fields, field) && !ExactCmp(fields, field, op, value) && !value.RefNew?
    ensures KeyCmp(DocKeys(Witness(fields, field, op, value), fields), field, op, value)
         != EvalCmp(Witness(fields, field, op, value), field, op, value, None, false)
  {
    var doc := Witness(fields, field, op, value);
    assert field !in DocKeys(doc, fields);
    assert DocFieldValue(doc, field) == AttrToFilterValue(RelatedToAny(op, value));
    RelatedHolds(op, value);
  }

  /** `RelatedToAny` is in the relation, where something is. */
  lemma RelatedHolds(op: CmpOp, value: FilterValue)
    requires !value.RefNew? && !BelowEmptyString(op, value)
    ensures value.VNull? <==> AttrToFilterValue(RelatedToAny(op, value)).None?
    ensures (op.Eq? || op.Ne?) && !value.VNull? ==> SameValue(AttrToFilterValue(RelatedToAny(op, value)).value, value)
    ensures !op.Eq? && !op.Ne? && !value.VNull? ==>
      Ordered(CompareValues(AttrToFilterValue(RelatedToAny(op, value)).value, value), op)
  {
    if value.VString? {
      AboveIsAbove(value.s);
      Order.LessIrreflexive(value.s);
    }
  }

  lemma InexactIdDisagrees(fields: seq<string>, op: CmpOp, value: FilterValue)
    requires !ExactCmp(fields, "id", op, value) && !value.RefNew?
    ensures KeyCmp(DocKeys(Witness(fields, "id", op, value), fields), "id", op, value)
         != EvalCmp(Witness(fields, "id", op, value), "id", op, value, None, false)
  {
    if value.VString? { AboveIsAbove(value.s); Order.LessIsStrictTotal(); }
    var doc := Witness(fields, "id", op, value);
    assert "id" in DocKeys(doc, fields) <==> HasKey(doc, fields, "id");
  }

  lemma InexactCmpDisagrees(fields: seq<string>, field: string, op: CmpOp, value: FilterValue)
    requires !ExactCmp(fields, field, op, value) && !value.RefNew?
    ensures KeyCmp(DocKeys(Witness(fields, field, op, value), fields), field, op, value)
         != EvalCmp(Witness(fields, field, op, value), field, op, value, None, false)
  {
    if field == "id" {
      InexactIdDisagrees(fields, op, value);
    } else {
      if IsIndexed(fields, field) {
        InexactIndexedDisagrees(fields, field, op, value);
      } else {
        InexactUnindexedDisagrees(fields, field, op, value);
      }
    }
  }

  /** The index and the scan agree on every document exactly for the comparisons of `ExactCmp`. */
  lemma CmpExactness(fields: seq<string>, field: string, op: CmpOp, value: FilterValue)
    requires !value.RefNew?
    ensures (forall doc: Document ::
      KeyCmp(DocKeys(doc, fields), field, op, value) == EvalCmp(doc, field, op, value, None, false))
      <==> ExactCmp(fields, field, op, value)
  {
    if ExactCmp(fields, field, op, value) {
      forall doc: Document
        ensures KeyCmp(DocKeys(doc, fields), field, op, value) == EvalCmp(doc, field, op, value, None, false)
      {
        ExactCmpAgrees(doc, fields, field, op, value);
      }
    } else {
      InexactCmpDisagrees(fields, field, op, value);
    }
  }

  /** The filters all of whose comparisons the index answers exactly. */
  predicate ExactExpr(expr: FilterExpr, fields: seq<string>) {
    match expr
    case And(subs) => forall sub :: sub in subs ==> ExactExpr(sub, fields)
    case Or(subs) => forall sub :: sub in subs ==> ExactExpr(sub, fields)
    case Cmp(field, op, value) => ExactCmp(fields, field, op, value)
  }

  /** Filters over indexed fields other than `id`, without null or `$ref_new` operands, without a zero
      in an equality, and with orderings against strings or against numbers beyond 0 and 1, are all
      among them. */
  lemma OrdinaryCmpIsExact(fields: seq<string>, field: string, op: CmpOp, value: FilterValue)
    requires field != "id" && IsIndexed(fields, field) && !NoOperand(value)
    requires (op.Eq? || op.Ne?) ==> value != VNumber(Finite(0.0)) && value != VNumber(NegativeZero)
    requires !op.Eq? && !op.Ne? ==> value.VString? || (value.VNumber? && !SomeBoolOrdered(value.n, op))
    ensures ExactExpr(Cmp(field, op, value), fields) && Keyable(Cmp(field, op, value))
  {
  }

  /** Exact comparisons agree on all documents. */
  lemma {:induction false} ExactExprAgrees(doc: Document, fields: seq<string>, expr: FilterExpr)
    requires ExactExpr(expr, fields) && Keyable(expr)
    ensures ExprAgrees(doc, fields, expr) && KeyEval(DocKeys(doc, fields), expr) == Eval(expr, doc)
  {
    match expr {
      case And(subs) =>
        forall sub | sub in subs ensures ExprAgrees(doc, fields, sub) { ExactExprAgrees(doc, fields, sub); }
      case Or(subs) =>
        forall sub | sub in subs ensures ExprAgrees(doc, fields, sub) { ExactExprAgrees(doc, fields, sub); }
      case Cmp(field, op, value) =>
        ExactCmpAgrees(doc, fields, field, op, value);
        CmpAgreesExactly(doc, fields, field, op, value);
    }
    AgreeingFilter(doc, fields, expr);
  }

  // ----- The segment as a function of the indexed documents -----

  predicate HasKeyAt(idx: Indexed, fields: seq<string>, id: Id, field: string, key: ValueKey) {
    id in idx && field in DocKeys(idx[id], fields) && DocKeys(idx[id], fields)[field] == key
  }

  function IdsWith(idx: Indexed, fields: seq<string>, field: string, key: ValueKey): set<Id> {
    set id | id in idx && HasKeyAt(idx, fields, id, field, key)
  }

  function ListsOf(idx: Indexed, fields: seq<string>, field: string): map<ValueKey, set<Id>> {
    var keys := set id | id in idx && field in DocKeys(idx[id], fields) :: DocKeys(idx[id], fields)[field];
    map k | k in keys :: IdsWith(idx, fields, field, k)
  }

  /** The segment built afresh from a map of documents. */
  function Inverted(idx: Indexed, fields: seq<string>): Segment {
    var used := set id, f | id in idx && f in DocKeys(idx[id], fields) :: f;
    Segment(idx.Keys, map f | f in used :: ListsOf(idx, fields, f))
  }

  lemma InvertedPosts(idx: Indexed, fields: seq<string>, f: string, k: ValueKey, id: Id)
    ensures Posted(Inverted(idx, fields).postings, f, k, id) <==> HasKeyAt(idx, fields, id, f, k)
  {
    if HasKeyAt(idx, fields, id, f, k) {
      assert f in Inverted(idx, fields).postings;
      assert k in ListsOf(idx, fields, f);
    }
  }

  lemma InvertedNoEmpty(idx: Indexed, fields: seq<string>)
    ensures NoEmptyLists(Inverted(idx, fields).postings)
  {
    var p := Inverted(idx, fields).postings;
    forall f | f in p ensures p[f] != map[] && forall k :: k in p[f] ==> p[f][k] != {} {
      var id :| id in idx && f in DocKeys(idx[id], fields);
      assert DocKeys(idx[id], fields)[f] in p[f];
      forall k | k in p[f] ensures p[f][k] != {} {
        var i :| i in idx && f in DocKeys(idx[i], fields) && k == DocKeys(idx[i], fields)[f];
        assert i in p[f][k];
      }
    }
  }

  lemma InvertedRepresents(idx: Indexed, fields: seq<string>)
    ensures Represents(Inverted(idx, fields), idx, fields)
  {
    InvertedNoEmpty(idx, fields);
    forall f, k, id ensures Posted(Inverted(idx, fields).postings, f, k, id) <==> HasKeyAt(idx, fields, id, f, k) {
      InvertedPosts(idx, fields, f, k, id);
    }
  }

  predicate Within(p: Postings, q: Postings) {
    forall f :: f in p ==> f in q && forall k :: k in p[f] ==> k in q[f] && p[f][k] <= q[f][k]
  }

  lemma PostsWithin(p: Postings, q: Postings)
    requires NoEmptyLists(p)
    requires forall f, k, id :: Posted(p, f, k, id) ==> Posted(q, f, k, id)
    ensures Within(p, q)
  {
    forall f, k | f in p && k in p[f] ensures f in q && k in q[f] && p[f][k] <= q[f][k] {
      forall id | id in p[f][k] ensures f in q && k in q[f] && id in q[f][k] {
        assert Posted(p, f, k, id);
      }
      assert p[f][k] != {};
    }
    forall f | f in p ensures f in q {
      assert p[f] != map[];
      var k :| k in p[f];
    }
  }

  lemma WithinBothWays(p: Postings, q: Postings)
    requires Within(p, q) && Within(q, p)
    ensures p == q
  {
    assert p.Keys == q.Keys;
    forall f | f in p ensures p[f] == q[f] {
      assert p[f].Keys == q[f].Keys;
      assert forall k :: k in p[f] ==> p[f][k] == q[f][k];
    }
  }

  /** However a segment came about, it is the one built afresh from the documents it represents. */
  lemma RepresentationUnique(seg: Segment, idx: Indexed, fields: seq<string>)
    requires Represents(seg, idx, fields)
    ensures seg == Inverted(idx, fields)
  {
    var built := Inverted(idx, fields);
    InvertedRepresents(idx, fields);
    PostsWithin(seg.postings, built.postings);
    PostsWithin(built.postings, seg.postings);
    WithinBothWays(seg.postings, built.postings);
  }

  // ----- The segment object -----

  class FilterSegment {
    var allDocIds: set<Id>
    var postings: Postings

    constructor ()
      ensures Value() == Segment({}, map[])
    {
      allDocIds, postings := {}, map[];
    }

    function Value(): Segment
      reads this
    {
      Segment(allDocIds, postings)
    }

    /** Post a document under each indexed field, in any order. */
    method AddDocument(id: Id, doc: Document, fields: seq<string>, ghost idx: Indexed)
      requires Represents(Value(), idx, fields) && id !in idx
      modifies this
      ensures Represents(Value(), idx[id := doc], fields)
    {
      allDocIds := allDocIds + {id};
      var keys := DocKeys(doc, fields);
      var todo := keys.Keys;
      ghost var before := postings;
      while todo != {}
        invariant todo <= keys.Keys && allDocIds == idx.Keys + {id}
        invariant NoEmptyLists(postings)
        invariant forall f, k, i :: Posted(postings, f, k, i) <==>
          Posted(before, f, k, i) || (i == id && f in keys && f !in todo && keys[f] == k)
      {
        var field :| field in todo;
        ghost var prev := postings;
        WithPostingNoEmpty(postings, field, keys[field], id);
        postings := WithPosting(postings, field, keys[field], id);
        forall f, k, i
          ensures Posted(postings, f, k, i) <==> Posted(prev, f, k, i) || (f, k, i) == (field, keys[field], id)
        {
          WithPostingPosts(prev, field, keys[field], id, f, k, i);
        }
        todo := todo - {field};
      }
      AddedRepresents(before, idx, fields, id, doc, Value());
    }

    /** Forget a document, if it is there. */
    method RemoveDocument(id: Id, fields: seq<string>, ghost idx: Indexed)
      requires Represents(Value(), idx, fields)
      modifies this
      ensures Represents(Value(), idx - {id}, fields)
    {
      if id !in allDocIds {
        assert idx - {id} == idx;
        return;
      }
      ghost var before := postings;
      allDocIds := allDocIds - {id};
      postings := WithoutId(postings, id);
      RemovedRepresents(before, idx, fields, id, Value());
    }

    method RemoveDocuments(ids: seq<Id>, fields: seq<string>, ghost idx: Indexed)
      requires Represents(Value(), idx, fields)
      modifies this
      ensures Represents(Value(), RemoveAll(idx, ids), fields)
    {
      ghost var now := idx;
      for i := 0 to |ids|
        invariant Represents(Value(), now, fields)
        invariant RemoveAll(now, ids[i..]) == RemoveAll(idx, ids)
      {
        assert ids[i..][1..] == ids[i + 1..];
        RemoveDocument(ids[i], fields, now);
        now := now - {ids[i]};
      }
    }

    method ReplaceDocument(id: Id, doc: Document, fields: seq<string>, ghost idx: Indexed)
      requires Represents(Value(), idx, fields)
      modifies this
      ensures Represents(Value(), idx[id := doc], fields)
    {
      RemoveDocument(id, fields, idx);
      AddDocument(id, doc, fields, idx - {id});
      assert (idx - {id})[id := doc] == idx[id := doc];
    }

    /** `apply_delta`: deletes, then each upsert replaces. */
    method ApplyDelta(upserts: seq<Row>, deletes: seq<Id>, fields: seq<string>, ghost idx: Indexed)
      requires Represents(Value(), idx, fields)
      modifies this
      ensures Represents(Value(), DeltaApplied(idx, upserts, deletes), fields)
    {
      RemoveDocuments(deletes, fields, idx);
      ghost var now := RemoveAll(idx, deletes);
      for i := 0 to |upserts|
        invariant Represents(Value(), now, fields)
        invariant PutRows(now, upserts[i..]) == DeltaApplied(idx, upserts, deletes)
      {
        assert upserts[i..][1..] == upserts[i + 1..];
        ReplaceDocument(upserts[i].0, upserts[i].1, fields, now);
        now := now[upserts[i].0 := upserts[i].1];
      }
    }

    /** `match_cmp`, scanning the posting lists of the field for orderings. */
    method MatchCmpScan(field: string, op: CmpOp, value: FilterValue) returns (out: set<Id>)
      requires (op.Eq? || op.Ne?) ==> !value.RefNew?
      ensures out == MatchCmp(Value(), field, op, value)
    {
      var byKey := if field in postings then postings[field] else map[];
      if op.Eq? {
        return if KeyOf(value) in byKey then byKey[KeyOf(value)] else {};
      }
      if op.Ne? {
        return allDocIds - (if KeyOf(value) in byKey then byKey[KeyOf(value)] else {});
      }
      out := {};
      var todo := byKey.Keys;
      while todo != {}
        invariant todo <= byKey.Keys
        invariant forall id :: id in out <==>
          exists k :: k in byKey && k !in todo && id in byKey[k] && KeyOrdered(k, value, op)
      {
        var k :| k in todo;
        if KeyOrdered(k, value, op) { out := out + byKey[k]; }
        todo := todo - {k};
      }
    }
  }

  lemma AddedRepresents(before: Postings, idx: Indexed, fields: seq<string>, id: Id, doc: Document, seg: Segment)
    requires Represents(Segment(idx.Keys, before), idx, fields) && id !in idx
    requires seg.allDocIds == idx.Keys + {id} && NoEmptyLists(seg.postings)
    requires forall f, k, i :: Posted(seg.postings, f, k, i) <==>
      Posted(before, f, k, i) || (i == id && f in DocKeys(doc, fields) && DocKeys(doc, fields)[f] == k)
    ensures Represents(seg, idx[id := doc], fields)
  {
    var idx' := idx[id := doc];
    forall f, k, i ensures Posted(seg.postings, f, k, i) <==>
      i in idx' && f in DocKeys(idx'[i], fields) && DocKeys(idx'[i], fields)[f] == k
    {
      assert Posted(before, f, k, i) <==> i in idx && f in DocKeys(idx[i], fields) && DocKeys(idx[i], fields)[f] == k;
    }
  }

  lemma RemovedRepresents(before: Postings, idx: Indexed, fields: seq<string>, id: Id, seg: Segment)
    requires Represents(Segment(idx.Keys, before), idx, fields)
    requires seg == Segment(idx.Keys - {id}, WithoutId(before, id))
    ensures Represents(seg, idx - {id}, fields)
  {
    var idx' := idx - {id};
    WithoutIdNoEmpty(before, id);
    forall f, k, i ensures Posted(seg.postings, f, k, i) <==>
      i in idx' && f in DocKeys(idx'[i], fields) && DocKeys(idx'[i], fields)[f] == k
    {
      WithoutIdPosts(before, id, f, k, i);
      assert Posted(before, f, k, i) <==> i in idx && f in DocKeys(idx[i], fields) && DocKeys(idx[i], fields)[f] == k;
    }
  }
}
