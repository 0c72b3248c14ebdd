/** The identity of a `TagElement`: `Equals`, the `==` and `!=` operators,
    `CompareTo`, `GetHashCode` and the implicit conversions to and from a
    bare name. All of them look at the name only. */
module TagIdentity {
  import opened Clr
  import opened TagElement
  import Ordinal

  /** An argument of static type `object`: null, a tag, or an object of
      some other class. */
  datatype Object = Null | TagObject(tag: Tag) | Other

  /** `obj as TagElement`: the tag, or null when `obj` is null or not a tag. */
  function AsTag(obj: Object): (r: Option<Tag>)
    ensures r.Some? <==> obj.TagObject?
    ensures r.Some? ==> r.value == obj.tag
  {
    match obj
    case TagObject(t) => Some(t)
    case _ => None
  }

  /** `t.Equals(obj)`. */
  function Equals(t: Tag, obj: Object): (r: bool)
    ensures r ==> obj.TagObject?
    ensures obj.TagObject? ==> (r <==> obj.tag.name == t.name)
  {
    match AsTag(obj)
    case Some(te) => te.name == t.name
    case None => false
  }

  /** The overloaded `a == b`. */
  function OperatorEq(a: Option<Tag>, b: Option<Tag>): (r: bool)
    ensures r ==> a.Some? && b.Some?
  {
    a.Some? && b.Some? && a.value.name == b.value.name
  }

  /** The overloaded `a != b`. */
  function OperatorNe(a: Option<Tag>, b: Option<Tag>): (r: bool)
    ensures r ==> a.Some? && b.Some?
  {
    a.Some? && b.Some? && a.value.name != b.value.name
  }

  /** `t.CompareTo(obj)` as evidently intended: greater than null and than
      any object that is not a tag, and ordinal by name against a tag. */
  function CompareTo(t: Tag, obj: Object): (r: int)
    ensures -1 <= r <= 1
    ensures !obj.TagObject? ==> r == 1
    ensures obj.TagObject? ==> (r == 0 <==> Equals(t, obj))
    ensures obj.TagObject? ==> (r < 0 <==> Ordinal.Precedes(t.name, obj.tag.name))
  {
    match AsTag(obj)
    case None => 1
    case Some(o) =>
      Ordinal.CompareZeroIffEqual(t.name, o.name);
      Ordinal.CompareNegativeIffPrecedes(t.name, o.name);
      Ordinal.Compare(t.name, o.name)
  }

  /** `t.CompareTo(obj)` as written: its null test `o == null` calls the
      overloaded `==`, which is false whenever an operand is null, so a null
      or non-tag argument reaches `o.TagName` and throws. */
  function CompareToAsWritten(t: Tag, obj: Object): (r: Outcome<int>)
    ensures r.ThrowsNullReference? <==> !obj.TagObject?
    ensures r.Returns? ==> r.value == CompareTo(t, obj)
  {
    var o := AsTag(obj);
    if OperatorEq(o, None) then Returns(1)
    else match o
      case None => ThrowsNullReference
      case Some(te) => Returns(Ordinal.Compare(t.name, te.name))
  }

  /** The discrepancy: against null the C# code throws where 1 is intended. */
  lemma CompareToNullThrows(t: Tag)
    ensures CompareToAsWritten(t, Null) == ThrowsNullReference
    ensures CompareTo(t, Null) == 1
  {
  }

  /** `GetHashCode`, given the runtime's (unspecified) string hash. */
  function HashCode(stringHash: Name -> int, t: Tag): (r: int)
    ensures forall u: Tag :: Equals(t, TagObject(u)) ==> stringHash(u.name) == r
  {
    stringHash(t.name)
  }

  /** The implicit conversion from `string`. */
  function FromName(name: Name): (r: Tag)
    ensures r.name == name && r.color == Black
    ensures AtMostOne(r) && ModeOf(r) == Plain
  {
    New(name)
  }

  /** The implicit conversion to `string`, which dereferences its operand. */
  function ToName(tag: Option<Tag>): (r: Outcome<Name>)
    ensures r.ThrowsNullReference? <==> tag.None?
    ensures tag.Some? ==> r == Returns(tag.value.name)
  {
    match tag
    case None => ThrowsNullReference
    case Some(t) => Returns(t.name)
  }

  /** `Equals` is an equivalence relation on tags. */
  lemma EqualsIsEquivalence(a: Tag, b: Tag, c: Tag)
    ensures Equals(a, TagObject(a))
    ensures Equals(a, TagObject(b)) <==> Equals(b, TagObject(a))
    ensures Equals(a, TagObject(b)) && Equals(b, TagObject(c)) ==> Equals(a, TagObject(c))
  {
  }

  /** Both operators are false as soon as either operand is null, so for
      null operands `!=` is not the negation of `==`, and null is not `==`
      to null. */
  lemma OperatorsWithNull(a: Option<Tag>, b: Option<Tag>)
    requires a.None? || b.None?
    ensures !OperatorEq(a, b) && !OperatorNe(a, b)
  {
  }

  /** On two tags, `!=` negates `==`, and `==` agrees with `Equals`. */
  lemma OperatorsOnTags(x: Tag, y: Tag)
    ensures OperatorNe(Some(x), Some(y)) == !OperatorEq(Some(x), Some(y))
    ensures OperatorEq(Some(x), Some(y)) == Equals(x, TagObject(y))
  {
  }

  /** `CompareTo` is a total order on tags by name: zero against itself,
      antisymmetric in sign, and zero exactly for tags that are `Equals`. */
  lemma CompareToLaws(a: Tag, b: Tag)
    ensures CompareTo(a, TagObject(a)) == 0
    ensures CompareTo(a, TagObject(b)) == -CompareTo(b, TagObject(a))
    ensures CompareTo(a, TagObject(b)) == 0 <==> Equals(a, TagObject(b))
  {
    Ordinal.CompareReflexive(a.name);
    Ordinal.CompareAntisymmetric(a.name, b.name);
  }

  lemma CompareToTransitive(a: Tag, b: Tag, c: Tag)
    requires CompareTo(a, TagObject(b)) < 0 && CompareTo(b, TagObject(c)) < 0
    ensures CompareTo(a, TagObject(c)) < 0
  {
    Ordinal.CompareTransitive(a.name, b.name, c.name);
  }

  /** Tags that are `Equals`, or compare as zero, have the same hash,
      whatever the string hash is. */
  lemma EqualTagsHashAlike(stringHash: Name -> int, a: Tag, b: Tag)
    requires Equals(a, TagObject(b)) || CompareTo(a, TagObject(b)) == 0
    ensures HashCode(stringHash, a) == HashCode(stringHash, b)
  {
  }

  /** A name converted to a tag and back is the same name, and the tag has
      no mode set and is black. */
  lemma NameRoundTrip(name: Name)
    ensures ToName(Some(FromName(name))) == Returns(name)
    ensures AtMostOne(FromName(name)) && ModeOf(FromName(name)) == Plain
    ensures FromName(name).color == Black
  {
  }

  /** A tag converted to its name and back is `Equals` to it, but the copy
      has mode Plain and colour black whatever the original had. */
  lemma TagRoundTrip(t: Tag)
    ensures ToName(Some(t)).Returns?
    ensures Equals(FromName(ToName(Some(t)).value), TagObject(t))
    ensures ModeOf(FromName(ToName(Some(t)).value)) == Plain
    ensures FromName(ToName(Some(t)).value).color == Black
  {
  }
}
