// Collapsing optional unions in a JSON Schema (`strip_null_from_anyof` in precis_mcp/admin_ops.py).

module SchemaNull {
  import opened Common

  /** A JSON value; an object lists its fields in order, and a key's first field is the one that counts. */
  datatype Json = Null | Bool(b: bool) | Number(n: real) | Text(s: string)
               | Array(items: Items) | Object(fields: Fields)
  datatype Items = Nil | Cons(head: Json, tail: Items)
  datatype Fields = Empty | Field(key: string, value: Json, rest: Fields)

  /** `NotAMapping`: the only non-null member is no object, so it cannot be spread into one. */
  datatype Result<+T> = Ok(value: T) | NotAMapping

  const ANY_OF := "anyOf"

  function Get(fields: Fields, k: string): Option<Json> {
    match fields
    case Empty => None
    case Field(key, value, rest) => if key == k then Some(value) else Get(rest, k)
  }

  function Without(fields: Fields, k: string): Fields {
    match fields
    case Empty => Empty
    case Field(key, value, rest) => if key == k then Without(rest, k) else Field(key, value, Without(rest, k))
  }

  /** `{**x, **y}`: the fields of `x`, overridden by those of `y`, then the rest of `y`. */
  function Merge(x: Fields, y: Fields): Fields {
    match x
    case Empty => y
    case Field(key, value, rest) =>
      var over := Get(y, key);
      Field(key, if over.Some? then over.value else value, Merge(rest, Without(y, key)))
  }

  /** A member that admits only null. */
  predicate IsNull(j: Json) {
    j.Object? && Get(j.fields, "type") == Some(Text("null"))
  }

  function NonNull(items: Items): Items {
    match items
    case Nil => Nil
    case Cons(head, tail) => if IsNull(head) then NonNull(tail) else Cons(head, NonNull(tail))
  }

  predicate HasNull(items: Items) {
    items.Cons? && (IsNull(items.head) || HasNull(items.tail))
  }

  /** An `anyOf` with exactly one non-null member next to a null one. */
  predicate Collapsible(fields: Fields) {
    var any := Get(fields, ANY_OF);
    && any.Some? && any.value.Array? && HasNull(any.value.items)
    && NonNull(any.value.items).Cons? && NonNull(any.value.items).tail.Nil?
  }

  function Sole(fields: Fields): Json
    requires Collapsible(fields)
  {
    NonNull(Get(fields, ANY_OF).value.items).head
  }

  // ----- Sizes: the merged node is smaller than the one it replaces ------------------------------

  function Size(j: Json): nat {
    match j
    case Array(items) => 1 + ItemsSize(items)
    case Object(fields) => 1 + FieldsSize(fields)
    case _ => 1
  }

  function ItemsSize(items: Items): nat {
    if items.Nil? then 0 else Size(items.head) + ItemsSize(items.tail)
  }

  function FieldsSize(fields: Fields): nat {
    if fields.Empty? then 0 else Size(fields.value) + FieldsSize(fields.rest)
  }

  lemma {:induction false} WithoutSize(fields: Fields, k: string)
    ensures FieldsSize(Without(fields, k)) + (if Get(fields, k).Some? then Size(Get(fields, k).value) else 0)
         <= FieldsSize(fields)
  {
    if fields.Field? {
      WithoutSize(fields.rest, k);
    }
  }

  lemma {:induction false} MergeSize(x: Fields, y: Fields)
    ensures FieldsSize(Merge(x, y)) <= FieldsSize(x) + FieldsSize(y)
  {
    if x.Field? {
      MergeSize(x.rest, Without(y, x.key));
      WithoutSize(y, x.key);
    }
  }

  lemma {:induction false} SoleSize(items: Items)
    ensures NonNull(items).Cons? ==> Size(NonNull(items).head) <= ItemsSize(items)
  {
    if items.Cons? {
      SoleSize(items.tail);
    }
  }

  lemma MergedSize(fields: Fields)
    requires Collapsible(fields) && Sole(fields).Object?
    ensures FieldsSize(Merge(Sole(fields).fields, Without(fields, ANY_OF))) < FieldsSize(fields)
  {
    SoleSize(Get(fields, ANY_OF).value.items);
    WithoutSize(fields, ANY_OF);
    MergeSize(Sole(fields).fields, Without(fields, ANY_OF));
  }

  // ----- The rewriting ---------------------------------------------------------------------------

  function Strip(j: Json): Result<Json>
    decreases Size(j), 1
  {
    match j
    case Object(fields) =>
      if Collapsible(fields) then
        if !Sole(fields).Object? then NotAMapping
        else
          MergedSize(fields);
          Strip(Object(Merge(Sole(fields).fields, Without(fields, ANY_OF))))
      else
        var stripped := StripFields(fields);
        if stripped.Ok? then Ok(Object(stripped.value)) else NotAMapping
    case Array(items) =>
      var stripped := StripItems(items);
      if stripped.Ok? then Ok(Array(stripped.value)) else NotAMapping
    case _ => Ok(j)
  }

  function StripFields(fields: Fields): Result<Fields>
    decreases FieldsSize(fields), 2, fields
  {
    match fields
    case Empty => Ok(Empty)
    case Field(key, value, rest) =>
      var first, others := Strip(value), StripFields(rest);
      if first.Ok? && others.Ok? then Ok(Field(key, first.value, others.value)) else NotAMapping
  }

  function StripItems(items: Items): Result<Items>
    decreases ItemsSize(items), 2, items
  {
    match items
    case Nil => Ok(Nil)
    case Cons(head, tail) =>
      var first, others := Strip(head), StripItems(tail);
      if first.Ok? && others.Ok? then Ok(Cons(first.value, others.value)) else NotAMapping
  }

  // ----- What it leaves --------------------------------------------------------------------------

  /** No collapsible `anyOf` anywhere. */
  predicate Clean(j: Json) {
    match j
    case Array(items) => CleanItems(items)
    case Object(fields) => !Collapsible(fields) && CleanFields(fields)
    case _ => true
  }

  predicate CleanItems(items: Items) {
    items.Cons? ==> Clean(items.head) && CleanItems(items.tail)
  }

  predicate CleanFields(fields: Fields) {
    fields.Field? ==> Clean(fields.value) && CleanFields(fields.rest)
  }

  lemma {:induction false} GetWithout(fields: Fields, k: string, other: string)
    ensures Get(Without(fields, k), other) == if other == k then None else Get(fields, other)
  {
    if fields.Field? {
      GetWithout(fields.rest, k, other);
    }
  }

  /** Siblings win over the fields of the collapsed member. */
  lemma {:induction false} GetMerge(x: Fields, y: Fields, k: string)
    ensures Get(Merge(x, y), k) == if Get(y, k).Some? then Get(y, k) else Get(x, k)
  {
    if x.Field? {
      GetMerge(x.rest, Without(y, x.key), k);
      GetWithout(y, x.key, k);
    }
  }

  lemma {:induction false} SoleIsNotNull(items: Items)
    ensures NonNull(items).Cons? ==> !IsNull(NonNull(items).head)
  {
    if items.Cons? {
      SoleIsNotNull(items.tail);
    }
  }

  /** Collapsing a node does not make it null, nor a null node non-null. */
  lemma CollapseKeepsNull(fields: Fields)
    requires Collapsible(fields) && Sole(fields).Object?
    ensures IsNull(Object(Merge(Sole(fields).fields, Without(fields, ANY_OF)))) <==> IsNull(Object(fields))
  {
    GetMerge(Sole(fields).fields, Without(fields, ANY_OF), "type");
    GetWithout(fields, ANY_OF, "type");
    SoleIsNotNull(Get(fields, ANY_OF).value.items);
  }

  /** A stripped value keeps its kind and its nullness, and has nothing left to collapse. */
  lemma {:induction false} StripCleans(j: Json)
    requires Strip(j).Ok?
    ensures var r := Strip(j).value;
            Clean(r) && (IsNull(r) <==> IsNull(j)) && (r.Object? <==> j.Object?) && (r.Array? <==> j.Array?)
    ensures !j.Object? && !j.Array? ==> Strip(j).value == j
    decreases Size(j), 1
  {
    match j
    case Object(fields) =>
      if Collapsible(fields) {
        MergedSize(fields);
        CollapseKeepsNull(fields);
        StripCleans(Object(Merge(Sole(fields).fields, Without(fields, ANY_OF))));
      } else {
        StripFieldsCleans(fields);
        StripFieldsGet(fields, "type");
        StripFieldsGet(fields, ANY_OF);
        if Get(fields, "type").Some? {
          GetSize(fields, "type");
          StripCleans(Get(fields, "type").value);
        }
        if Get(fields, ANY_OF).Some? {
          GetSize(fields, ANY_OF);
          StripCleans(Get(fields, ANY_OF).value);
          if Get(fields, ANY_OF).value.Array? {
            StripKeepsMembers(Get(fields, ANY_OF).value.items);
          }
        }
      }
    case Array(items) => StripItemsCleans(items);
    case _ =>
  }

  lemma {:induction false} GetSize(fields: Fields, k: string)
    requires Get(fields, k).Some?
    ensures Size(Get(fields, k).value) <= FieldsSize(fields)
  {
    if fields.key != k {
      GetSize(fields.rest, k);
    }
  }

  lemma {:induction false} StripFieldsGet(fields: Fields, k: string)
    requires StripFields(fields).Ok?
    ensures Get(fields, k).None? <==> Get(StripFields(fields).value, k).None?
    ensures Get(fields, k).Some? ==> Strip(Get(fields, k).value) == Ok(Get(StripFields(fields).value, k).value)
  {
    if fields.Field? {
      StripFieldsGet(fields.rest, k);
    }
  }

  lemma {:induction false} StripFieldsCleans(fields: Fields)
    requires StripFields(fields).Ok?
    ensures CleanFields(StripFields(fields).value)
    decreases FieldsSize(fields), 2, fields
  {
    if fields.Field? {
      StripCleans(fields.value);
      StripFieldsCleans(fields.rest);
    }
  }

  lemma {:induction false} StripItemsCleans(items: Items)
    requires StripItems(items).Ok?
    ensures CleanItems(StripItems(items).value)
    decreases ItemsSize(items), 2, items
  {
    if items.Cons? {
      StripCleans(items.head);
      StripItemsCleans(items.tail);
    }
  }

  /** Stripping the members of a union keeps how many are null and how many are not. */
  lemma {:induction false} StripKeepsMembers(items: Items)
    requires StripItems(items).Ok?
    ensures HasNull(StripItems(items).value) <==> HasNull(items)
    ensures NonNull(StripItems(items).value).Nil? <==> NonNull(items).Nil?
    ensures NonNull(items).Cons? ==>
      (NonNull(StripItems(items).value).tail.Nil? <==> NonNull(items).tail.Nil?)
    decreases ItemsSize(items), 2, items
  {
    if items.Cons? {
      StripCleans(items.head);
      StripKeepsMembers(items.tail);
    }
  }

  /** What has nothing to collapse is left as it is. */
  lemma {:induction false} CleanStays(j: Json)
    requires Clean(j)
    ensures Strip(j) == Ok(j)
  {
    match j
    case Object(fields) => CleanFieldsStay(fields);
    case Array(items) => CleanItemsStay(items);
    case _ =>
  }

  lemma {:induction false} CleanFieldsStay(fields: Fields)
    requires CleanFields(fields)
    ensures StripFields(fields) == Ok(fields)
  {
    if fields.Field? {
      CleanStays(fields.value);
      CleanFieldsStay(fields.rest);
    }
  }

  lemma {:induction false} CleanItemsStay(items: Items)
    requires CleanItems(items)
    ensures StripItems(items) == Ok(items)
  {
    if items.Cons? {
      CleanStays(items.head);
      CleanItemsStay(items.tail);
    }
  }

  /** The fixed points are exactly the trees with nothing to collapse, and stripping reaches one at once. */
  lemma StripFixedPoints(j: Json)
    ensures Strip(j) == Ok(j) <==> Clean(j)
    ensures Strip(j).Ok? ==> Clean(Strip(j).value) && Strip(Strip(j).value) == Strip(j)
  {
    if Strip(j).Ok? {
      StripCleans(j);
      CleanStays(Strip(j).value);
    }
    if Clean(j) {
      CleanStays(j);
    }
  }

  // ----- What every field becomes ----------------------------------------------------------------

  /**
   * The source of the field `k` in the result, read off the tree: following the sole non-null members
   * inwards, the outermost object that has it, a collapsed `anyOf` not counting.
   */
  function Effective(fields: Fields, k: string): Option<Json>
    decreases FieldsSize(fields)
  {
    if Collapsible(fields) && (k == ANY_OF || Get(fields, k).None?) && Sole(fields).Object? then
      SoleSmaller(fields);
      Effective(Sole(fields).fields, k)
    else Get(fields, k)
  }

  lemma SoleSmaller(fields: Fields)
    requires Collapsible(fields)
    ensures Size(Sole(fields)) < FieldsSize(fields)
  {
    SoleSize(Get(fields, ANY_OF).value.items);
    GetSize(fields, ANY_OF);
  }

  lemma EffectiveMerged(fields: Fields, k: string)
    requires Collapsible(fields) && Sole(fields).Object?
    ensures Effective(Merge(Sole(fields).fields, Without(fields, ANY_OF)), k) == Effective(fields, k)
  {
    var sole, others := Sole(fields).fields, Without(fields, ANY_OF);
    GetMerge(sole, others, ANY_OF);
    GetMerge(sole, others, k);
    GetWithout(fields, ANY_OF, ANY_OF);
    GetWithout(fields, ANY_OF, k);
  }

  /**
   * However deep the collapsing goes, the result has exactly the fields that the collapsed objects have,
   * each with the stripped value of its outermost occurrence: the fields beside an `anyOf`, and what
   * its sole member brings.
   */
  lemma {:induction false} FieldsSurvive(fields: Fields, k: string)
    requires Strip(Object(fields)).Ok?
    ensures var r := Strip(Object(fields)).value;
            && r.Object? && (Get(r.fields, k).Some? <==> Effective(fields, k).Some?)
            && (Effective(fields, k).Some? ==> Strip(Effective(fields, k).value) == Ok(Get(r.fields, k).value))
    decreases FieldsSize(fields)
  {
    if Collapsible(fields) {
      MergedSize(fields);
      EffectiveMerged(fields, k);
      FieldsSurvive(Merge(Sole(fields).fields, Without(fields, ANY_OF)), k);
    } else {
      StripFieldsGet(fields, k);
    }
  }

  /** Every field beside an `anyOf` survives with its own stripped value. */
  lemma SiblingsSurvive(fields: Fields, k: string)
    requires Strip(Object(fields)).Ok? && k != ANY_OF && Get(fields, k).Some?
    ensures Strip(Get(fields, k).value).Ok?
    ensures var r := Strip(Object(fields)).value;
            r.Object? && Get(r.fields, k) == Some(Strip(Get(fields, k).value).value)
  {
    FieldsSurvive(fields, k);
  }

  function Length(items: Items): nat {
    if items.Nil? then 0 else 1 + Length(items.tail)
  }

  function At(items: Items, i: nat): Json
    requires i < Length(items)
  {
    if i == 0 then items.head else At(items.tail, i - 1)
  }

  function Nulls(items: Items): nat {
    if items.Nil? then 0 else (if IsNull(items.head) then 1 else 0) + Nulls(items.tail)
  }

  lemma {:induction false} NonNullCounts(items: Items)
    ensures Length(NonNull(items)) + Nulls(items) == Length(items) && (HasNull(items) <==> Nulls(items) > 0)
  {
    if items.Cons? {
      NonNullCounts(items.tail);
    }
  }

  lemma {:induction false} SoleIsMember(items: Items) returns (i: nat)
    requires NonNull(items).Cons?
    ensures i < Length(items) && At(items, i) == NonNull(items).head && !IsNull(At(items, i))
  {
    if IsNull(items.head) {
      i := SoleIsMember(items.tail);
      i := i + 1;
    } else {
      i := 0;
    }
  }

  /** An `anyOf` collapses exactly when one of its members, and only one, admits more than null, and others do not. */
  lemma CollapsesWhen(fields: Fields)
    ensures Collapsible(fields) <==>
      && Get(fields, ANY_OF).Some? && Get(fields, ANY_OF).value.Array?
      && var items := Get(fields, ANY_OF).value.items; Length(items) >= 2 && Nulls(items) == Length(items) - 1
    ensures Collapsible(fields) ==>
      var items := Get(fields, ANY_OF).value.items;
      exists i :: 0 <= i < Length(items) && Sole(fields) == At(items, i) && !IsNull(At(items, i))
  {
    if Get(fields, ANY_OF).Some? && Get(fields, ANY_OF).value.Array? {
      var items := Get(fields, ANY_OF).value.items;
      NonNullCounts(items);
      assert Length(NonNull(items)) == 1 <==> NonNull(items).Cons? && NonNull(items).tail.Nil?;
      if Collapsible(fields) {
        var i := SoleIsMember(items);
      }
    }
  }

  /** An array is stripped element by element. */
  lemma {:induction false} ItemsSurvive(items: Items, i: nat)
    requires Strip(Array(items)).Ok? && i < Length(items)
    ensures var r := Strip(Array(items)).value;
            r.Array? && Length(r.items) == Length(items) && Strip(At(items, i)) == Ok(At(r.items, i))
  {
    assert StripItems(items).Ok?;
    LengthStays(items);
    if i > 0 {
      ItemsSurvive(items.tail, i - 1);
    }
  }

  lemma {:induction false} LengthStays(items: Items)
    requires StripItems(items).Ok?
    ensures Length(StripItems(items).value) == Length(items)
  {
    if items.Cons? {
      LengthStays(items.tail);
    }
  }

  // ----- Exactly when it fails -------------------------------------------------------------------

  /** No object repeats a key, as in every Python dict. */
  predicate Unique(j: Json) {
    match j
    case Array(items) => UniqueItems(items)
    case Object(fields) => UniqueFields(fields)
    case _ => true
  }

  predicate UniqueItems(items: Items) {
    items.Cons? ==> Unique(items.head) && UniqueItems(items.tail)
  }

  predicate UniqueFields(fields: Fields) {
    fields.Field? ==> fields.key !in Keys(fields.rest) && Unique(fields.value) && UniqueFields(fields.rest)
  }

  function Keys(fields: Fields): set<string> {
    if fields.Empty? then {} else {fields.key} + Keys(fields.rest)
  }

  /**
   * Whether stripping succeeds, read off the tree: following the sole non-null members inwards, each
   * is an object, and every field on the way that no outer object hides, other than a collapsed
   * `anyOf`, can be stripped itself.
   */
  predicate Strippable(j: Json)
    decreases Size(j), 3
  {
    match j
    case Array(items) => AllStrippable(items)
    case Object(fields) => ChainStrippable(fields, {})
    case _ => true
  }

  predicate AllStrippable(items: Items)
    decreases ItemsSize(items), 4, items
  {
    items.Cons? ==> Strippable(items.head) && AllStrippable(items.tail)
  }

  predicate ChainStrippable(fields: Fields, hidden: set<string>)
    decreases FieldsSize(fields), 5
  {
    if Collapsible(fields) then
      SoleSmaller(fields);
      && Sole(fields).Object? && FieldsStrippable(fields, hidden + {ANY_OF})
      && ChainStrippable(Sole(fields).fields, (hidden + Keys(fields)) - {ANY_OF})
    else FieldsStrippable(fields, hidden)
  }

  predicate FieldsStrippable(fields: Fields, hidden: set<string>)
    decreases FieldsSize(fields), 4, fields
  {
    fields.Field? ==>
      (fields.key !in hidden ==> Strippable(fields.value)) && FieldsStrippable(fields.rest, hidden)
  }

  lemma {:induction false} KeysAre(fields: Fields, k: string)
    ensures k in Keys(fields) <==> Get(fields, k).Some?
  {
    if fields.Field? {
      KeysAre(fields.rest, k);
    }
  }

  predicate Passes(fields: Fields, hidden: set<string>, k: string) {
    k !in hidden && Get(fields, k).Some? ==> Strippable(Get(fields, k).value)
  }

  lemma {:induction false} FieldsStrippableAt(fields: Fields, hidden: set<string>)
    requires UniqueFields(fields)
    ensures FieldsStrippable(fields, hidden) <==> forall k :: Passes(fields, hidden, k)
  {
    if fields.Field? {
      FieldsStrippableAt(fields.rest, hidden);
      KeysAre(fields.rest, fields.key);
      forall k
        ensures k != fields.key ==> (Passes(fields, hidden, k) <==> Passes(fields.rest, hidden, k))
        ensures Passes(fields.rest, hidden, fields.key)
      {
      }
      assert Passes(fields, hidden, fields.key) <==> (fields.key !in hidden ==> Strippable(fields.value));
    }
  }

  lemma {:induction false} WithoutUnique(fields: Fields, k: string)
    requires UniqueFields(fields)
    ensures UniqueFields(Without(fields, k)) && Keys(Without(fields, k)) == Keys(fields) - {k}
  {
    if fields.Field? {
      WithoutUnique(fields.rest, k);
    }
  }

  lemma {:induction false} GetUnique(fields: Fields, k: string)
    requires UniqueFields(fields) && Get(fields, k).Some?
    ensures Unique(Get(fields, k).value)
  {
    if fields.key != k {
      GetUnique(fields.rest, k);
    }
  }

  lemma {:induction false} MergeUnique(x: Fields, y: Fields)
    requires UniqueFields(x) && UniqueFields(y)
    ensures UniqueFields(Merge(x, y)) && Keys(Merge(x, y)) == Keys(x) + Keys(y)
  {
    if x.Field? {
      KeysAre(y, x.key);
      if Get(y, x.key).Some? {
        GetUnique(y, x.key);
      }
      WithoutUnique(y, x.key);
      MergeUnique(x.rest, Without(y, x.key));
    }
  }

  lemma {:induction false} SoleUnique(items: Items)
    requires UniqueItems(items) && NonNull(items).Cons?
    ensures Unique(NonNull(items).head)
  {
    if IsNull(items.head) {
      SoleUnique(items.tail);
    }
  }

  /** The fields of a merged object pass when the outer ones do, and the inner ones that they do not hide. */
  lemma MergeStrippable(x: Fields, y: Fields, hidden: set<string>)
    requires UniqueFields(x) && UniqueFields(y)
    ensures FieldsStrippable(Merge(x, y), hidden) <==>
            FieldsStrippable(y, hidden) && FieldsStrippable(x, hidden + Keys(y))
  {
    MergeUnique(x, y);
    FieldsStrippableAt(Merge(x, y), hidden);
    FieldsStrippableAt(y, hidden);
    FieldsStrippableAt(x, hidden + Keys(y));
    forall k
      ensures Passes(Merge(x, y), hidden, k) <==> Passes(y, hidden, k) && Passes(x, hidden + Keys(y), k)
    {
      GetMerge(x, y, k);
      KeysAre(y, k);
    }
  }

  lemma WithoutStrippable(fields: Fields, k: string, hidden: set<string>)
    requires UniqueFields(fields)
    ensures FieldsStrippable(Without(fields, k), hidden) <==> FieldsStrippable(fields, hidden + {k})
  {
    WithoutUnique(fields, k);
    FieldsStrippableAt(Without(fields, k), hidden);
    FieldsStrippableAt(fields, hidden + {k});
    forall other
      ensures Passes(Without(fields, k), hidden, other) <==> Passes(fields, hidden + {k}, other)
    {
      GetWithout(fields, k, other);
    }
  }

  /** Merging the sole member into its node does not change whether the chain can be stripped. */
  lemma MergedChain(fields: Fields)
    requires UniqueFields(fields) && Collapsible(fields) && Sole(fields).Object?
    ensures ChainStrippable(Merge(Sole(fields).fields, Without(fields, ANY_OF)), {}) <==> ChainStrippable(fields, {})
  {
    var inner, outer := Sole(fields).fields, Without(fields, ANY_OF);
    var merged := Merge(inner, outer);
    GetUnique(fields, ANY_OF);
    SoleUnique(Get(fields, ANY_OF).value.items);
    WithoutUnique(fields, ANY_OF);
    MergeUnique(inner, outer);
    GetMerge(inner, outer, ANY_OF);
    GetWithout(fields, ANY_OF, ANY_OF);
    WithoutStrippable(fields, ANY_OF, {});
    var hidden := ({} + Keys(fields)) - {ANY_OF};
    assert hidden == Keys(outer);
    if Collapsible(inner) {
      MergedInnerChain(fields);
    } else {
      MergeStrippable(inner, outer, {});
      assert {} + Keys(outer) == hidden && {} + {ANY_OF} == {ANY_OF};
    }
  }

  lemma MergedInnerChain(fields: Fields)
    requires UniqueFields(fields) && Collapsible(fields) && Sole(fields).Object? && Collapsible(Sole(fields).fields)
    ensures ChainStrippable(Merge(Sole(fields).fields, Without(fields, ANY_OF)), {}) <==> ChainStrippable(fields, {})
  {
    var inner, outer := Sole(fields).fields, Without(fields, ANY_OF);
    var merged := Merge(inner, outer);
    GetUnique(fields, ANY_OF);
    SoleUnique(Get(fields, ANY_OF).value.items);
    WithoutUnique(fields, ANY_OF);
    MergeUnique(inner, outer);
    GetMerge(inner, outer, ANY_OF);
    GetWithout(fields, ANY_OF, ANY_OF);
    assert Collapsible(merged) && Sole(merged) == Sole(inner);
    MergeStrippable(inner, outer, {ANY_OF});
    WithoutStrippable(fields, ANY_OF, {});
    WithoutStrippable(fields, ANY_OF, {ANY_OF});
    var hidden := ({} + Keys(fields)) - {ANY_OF};
    assert hidden == Keys(outer) && {ANY_OF} + {ANY_OF} == {} + {ANY_OF};
    assert {ANY_OF} + Keys(outer) == hidden + {ANY_OF};
    assert ({} + Keys(merged)) - {ANY_OF} == (hidden + Keys(inner)) - {ANY_OF};
    assert {} + {ANY_OF} == {ANY_OF};
    assert ChainStrippable(inner, hidden) <==>
           Sole(inner).Object? && FieldsStrippable(inner, hidden + {ANY_OF})
           && ChainStrippable(Sole(inner).fields, (hidden + Keys(inner)) - {ANY_OF});
    assert ChainStrippable(fields, {}) <==> FieldsStrippable(fields, {ANY_OF}) && ChainStrippable(inner, hidden);
    assert ChainStrippable(merged, {}) <==>
           Sole(merged).Object? && FieldsStrippable(merged, {ANY_OF})
           && ChainStrippable(Sole(merged).fields, ({} + Keys(merged)) - {ANY_OF});
  }

  /** Stripping succeeds exactly on strippable trees. */
  lemma {:induction false} StripsIffStrippable(j: Json)
    requires Unique(j)
    ensures Strip(j).Ok? <==> Strippable(j)
    decreases Size(j), 1
  {
    match j
    case Object(fields) =>
      if !Collapsible(fields) {
        StripsIffFields(fields);
      } else if Sole(fields).Object? {
        var inner, outer := Sole(fields).fields, Without(fields, ANY_OF);
        GetUnique(fields, ANY_OF);
        SoleUnique(Get(fields, ANY_OF).value.items);
        WithoutUnique(fields, ANY_OF);
        MergeUnique(inner, outer);
        MergedSize(fields);
        MergedChain(fields);
        StripsIffStrippable(Object(Merge(inner, outer)));
      }
    case Array(items) => StripsIffItems(items);
    case _ =>
  }

  lemma {:induction false} StripsIffFields(fields: Fields)
    requires UniqueFields(fields)
    ensures StripFields(fields).Ok? <==> FieldsStrippable(fields, {})
    decreases FieldsSize(fields), 2, fields
  {
    if fields.Field? {
      StripsIffStrippable(fields.value);
      StripsIffFields(fields.rest);
    }
  }

  lemma {:induction false} StripsIffItems(items: Items)
    requires UniqueItems(items)
    ensures StripItems(items).Ok? <==> AllStrippable(items)
    decreases ItemsSize(items), 2, items
  {
    if items.Cons? {
      StripsIffStrippable(items.head);
      StripsIffItems(items.tail);
    }
  }

  /** What stripping returns repeats no key either. */
  lemma {:induction false} StripKeepsUnique(j: Json)
    requires Unique(j) && Strip(j).Ok?
    ensures Unique(Strip(j).value)
    decreases Size(j), 1
  {
    match j
    case Object(fields) =>
      if Collapsible(fields) {
        GetUnique(fields, ANY_OF);
        SoleUnique(Get(fields, ANY_OF).value.items);
        WithoutUnique(fields, ANY_OF);
        MergeUnique(Sole(fields).fields, Without(fields, ANY_OF));
        MergedSize(fields);
        StripKeepsUnique(Object(Merge(Sole(fields).fields, Without(fields, ANY_OF))));
      } else {
        StripFieldsUnique(fields);
      }
    case Array(items) => StripItemsUnique(items);
    case _ =>
  }

  lemma {:induction false} StripFieldsUnique(fields: Fields)
    requires UniqueFields(fields) && StripFields(fields).Ok?
    ensures UniqueFields(StripFields(fields).value) && Keys(StripFields(fields).value) == Keys(fields)
    decreases FieldsSize(fields), 2, fields
  {
    if fields.Field? {
      StripKeepsUnique(fields.value);
      StripFieldsUnique(fields.rest);
    }
  }

  lemma {:induction false} StripItemsUnique(items: Items)
    requires UniqueItems(items) && StripItems(items).Ok?
    ensures UniqueItems(StripItems(items).value)
    decreases ItemsSize(items), 2, items
  {
    if items.Cons? {
      StripKeepsUnique(items.head);
      StripItemsUnique(items.tail);
    }
  }

  const NULL_TYPE := Object(Field("type", Text("null"), Empty))

  /** What Pydantic emits for `age: Optional[int]` becomes the schema of `int` under the same title. */
  lemma OptionalInteger()
    ensures var integer := Object(Field("type", Text("integer"), Empty));
            Strip(Object(Field(ANY_OF, Array(Cons(integer, Cons(NULL_TYPE, Nil))), Field("title", Text("Age"), Empty))))
            == Ok(Object(Field("type", Text("integer"), Field("title", Text("Age"), Empty))))
  {
    var integer := Object(Field("type", Text("integer"), Empty));
    var items := Cons(integer, Cons(NULL_TYPE, Nil));
    var title := Field("title", Text("Age"), Empty);
    var fields := Field(ANY_OF, Array(items), title);
    var merged := Field("type", Text("integer"), title);
    assert Get(integer.fields, "type") == Some(Text("integer")) && !IsNull(integer) && IsNull(NULL_TYPE);
    assert NonNull(Cons(NULL_TYPE, Nil)) == Nil && HasNull(Cons(NULL_TYPE, Nil));
    assert NonNull(items) == Cons(integer, Nil) && Collapsible(fields) && Sole(fields) == integer;
    assert Without(title, ANY_OF) == title && Without(title, "type") == title && Get(title, "type") == None;
    assert Without(fields, ANY_OF) == title && Merge(Empty, title) == title && Merge(integer.fields, title) == merged;
    assert Get(merged, ANY_OF) == None && CleanFields(title) && Clean(Object(merged));
    CleanStays(Object(merged));
  }

  /** `{anyOf: [true, {type: "null"}]}` raises a TypeError; `{anyOf: [true, false]}` is left alone. */
  lemma BooleanMembers()
    ensures Strip(Object(Field(ANY_OF, Array(Cons(Bool(true), Cons(NULL_TYPE, Nil))), Empty))) == NotAMapping
    ensures var both := Object(Field(ANY_OF, Array(Cons(Bool(true), Cons(Bool(false), Nil))), Empty));
            Strip(both) == Ok(both) && !Regular(both)
  {
    var items := Cons(Bool(true), Cons(NULL_TYPE, Nil));
    var fields := Field(ANY_OF, Array(items), Empty);
    assert IsNull(NULL_TYPE) && NonNull(Cons(NULL_TYPE, Nil)) == Nil && NonNull(items) == Cons(Bool(true), Nil);
    assert HasNull(Cons(NULL_TYPE, Nil)) && Collapsible(fields) && Sole(fields) == Bool(true);
    var others := Cons(Bool(true), Cons(Bool(false), Nil));
    var both := Field(ANY_OF, Array(others), Empty);
    assert !HasNull(Cons(Bool(false), Nil)) && !HasNull(others);
    assert CleanItems(Cons(Bool(false), Nil)) && CleanItems(others) && Clean(Object(both));
    CleanStays(Object(both));
  }

  // ----- Totality --------------------------------------------------------------------------------

  /** Every member of every `anyOf` is an object. */
  predicate Regular(j: Json) {
    match j
    case Array(items) => RegularItems(items)
    case Object(fields) => RegularFields(fields)
    case _ => true
  }

  predicate RegularItems(items: Items) {
    items.Cons? ==> Regular(items.head) && RegularItems(items.tail)
  }

  predicate RegularFields(fields: Fields) {
    fields.Field? ==>
      && Regular(fields.value) && RegularFields(fields.rest)
      && (fields.key == ANY_OF && fields.value.Array? ==> AllObjects(fields.value.items))
  }

  predicate AllObjects(items: Items) {
    items.Cons? ==> items.head.Object? && AllObjects(items.tail)
  }

  lemma {:induction false} RegularGet(fields: Fields, k: string)
    requires RegularFields(fields) && Get(fields, k).Some?
    ensures Regular(Get(fields, k).value)
    ensures k == ANY_OF && Get(fields, k).value.Array? ==> AllObjects(Get(fields, k).value.items)
  {
    if fields.key != k {
      RegularGet(fields.rest, k);
    }
  }

  lemma {:induction false} RegularWithout(fields: Fields, k: string)
    requires RegularFields(fields)
    ensures RegularFields(Without(fields, k))
  {
    if fields.Field? {
      RegularWithout(fields.rest, k);
    }
  }

  lemma {:induction false} RegularMerge(x: Fields, y: Fields)
    requires RegularFields(x) && RegularFields(y)
    ensures RegularFields(Merge(x, y))
  {
    if x.Field? {
      if Get(y, x.key).Some? {
        RegularGet(y, x.key);
      }
      RegularWithout(y, x.key);
      RegularMerge(x.rest, Without(y, x.key));
    }
  }

  lemma {:induction false} RegularSole(items: Items)
    requires RegularItems(items) && AllObjects(items) && NonNull(items).Cons?
    ensures NonNull(items).head.Object? && Regular(NonNull(items).head)
  {
    if IsNull(items.head) {
      RegularSole(items.tail);
    }
  }

  /** A tree whose `anyOf` members are all objects is always rewritten. */
  lemma {:induction false} RegularStrips(j: Json)
    requires Regular(j)
    ensures Strip(j).Ok?
    decreases Size(j), 1
  {
    match j
    case Object(fields) =>
      if Collapsible(fields) {
        RegularGet(fields, ANY_OF);
        RegularSole(Get(fields, ANY_OF).value.items);
        RegularWithout(fields, ANY_OF);
        RegularMerge(Sole(fields).fields, Without(fields, ANY_OF));
        MergedSize(fields);
        RegularStrips(Object(Merge(Sole(fields).fields, Without(fields, ANY_OF))));
      } else {
        RegularFieldsStrip(fields);
      }
    case Array(items) => RegularItemsStrip(items);
    case _ =>
  }

  lemma {:induction false} RegularFieldsStrip(fields: Fields)
    requires RegularFields(fields)
    ensures StripFields(fields).Ok?
    decreases FieldsSize(fields), 2, fields
  {
    if fields.Field? {
      RegularStrips(fields.value);
      RegularFieldsStrip(fields.rest);
    }
  }

  lemma {:induction false} RegularItemsStrip(items: Items)
    requires RegularItems(items)
    ensures StripItems(items).Ok?
    decreases ItemsSize(items), 2, items
  {
    if items.Cons? {
      RegularStrips(items.head);
      RegularItemsStrip(items.tail);
    }
  }
}
