# TagElement model

A Dafny model of `TagElement`, the tag value of the image viewer's tag
filter. A tag has a name, which is its identity. It has three filtering
flags, documented in the code as: Include ("should this tag be required for
matching?"), Exclude ("should this tag be excluded from all matches?") and
Union ("should this tag be optional for all matches?"). How the filter uses
the flags lies outside this model. It also has a display colour. The flags are written through three property setters. Each
setter does nothing when given the flag's current value. Otherwise it writes
that flag and clears the other two. Equality, the `==`/`!=` operators,
`CompareTo`, `GetHashCode` and the conversions to and from a bare string all
look at the name only.

Modules:

- `Clr` (`clr.dfy`): a .NET string as a sequence of UTF-16 code units, a
  possibly-null reference (`Option`), and a call that returns or throws a
  NullReferenceException (`Outcome`).
- `Ordinal` (`ordinal.dfy`): `string.Compare(a, b, StringComparison.Ordinal)`
  as a recursive sign function. It is checked against an independent
  definition of "precedes": a proper prefix, or a smaller code unit at the
  first difference. The file proves reflexivity, antisymmetry, transitivity,
  and that the comparison is zero exactly when the strings are equal.
- `TagElement` (`tag_element.dfy`): the tag as an immutable record, with the
  constructor and the setters as pure functions. The three flags are linked
  to a four-valued `Mode` by `ModeOf`. `Assign`/`Step`/`RunModes` form a
  reference state machine over `Mode`. A lemma proves that any sequence of
  setter calls, starting from any state with at most one flag set, keeps
  that invariant and moves the mode exactly as the reference machine does.
- `TagIdentity` (`tag_identity.dfy`): an argument of type `object` is
  `Null`, a tag, or some other object. This module models `obj as
  TagElement`, `Equals`, the two operators, `CompareTo` (both as written and
  as intended), `GetHashCode` and the two implicit conversions.

The code keeps three independent booleans rather than one four-valued
mode. `ModeOf` and `RunRefinesModes` show that the booleans behave as one
four-valued mode in every state reachable from the constructor.

The `? 1 :` branch at line 85 shows that `CompareTo` is meant to return 1
against null or a non-tag. The code does not do this (see Findings). The
model keeps the code's behaviour in `CompareToAsWritten`. It uses the
intended behaviour in `CompareTo`.

## Model

| member | source | states |
|---|---|---|
| TagElement.New | Components/TagElement.cs:8-17 | A fresh tag has the given name, no flag set (mode Plain) and colour black |
| TagElement.ModeOf | Components/TagElement.cs:8-10 | When at most one flag is set, the flags encode exactly one of Plain/Include/Exclude/Union, each flag exactly when its mode is chosen |
| TagElement.SetInclude | Components/TagElement.cs:27-35 | Keeps name and colour. The Include flag ends up equal to the value. Writing the current value changes nothing. A real change clears Exclude and Union. On an invariant state the mode moves as the reference machine `Assign` says |
| TagElement.SetExclude | Components/TagElement.cs:40-50 | Same as SetInclude, for the Exclude flag (Include and Union cleared) |
| TagElement.SetUnion | Components/TagElement.cs:55-65 | Same as SetInclude, for the Union flag (Include and Exclude cleared) |
| TagElement.SetColor | Components/TagElement.cs:73 | Sets the colour and leaves the name and all three flags unchanged |
| TagElement.Apply | Components/TagElement.cs:27-73 | Any single property write keeps the name and the at-most-one-flag invariant, and moves the mode by one reference-machine step |
| TagElement.RunRefinesModes | Components/TagElement.cs:27-65 | From any invariant state, every sequence of setter calls keeps the name and the invariant, and ends in the mode the reference machine reaches |
| TagElement.FreshTagKeepsInvariant | Components/TagElement.cs:13-65 | Every tag reachable from the constructor by setter calls has its original name and at most one flag set |
| TagElement.BrokenStateStaysBroken | Components/TagElement.cs:30 | A state with two flags set is not repaired by a no-op write, so the invariant holds only from reachable states |
| Ordinal.Compare | Components/TagElement.cs:85 | The ordinal comparison of two names yields a sign in -1..1 |
| Ordinal.CompareReflexive | Components/TagElement.cs:85 | A name compares as zero with itself |
| Ordinal.CompareAntisymmetric | Components/TagElement.cs:85 | Swapping the operands negates the comparison |
| Ordinal.CompareZeroIffEqual | Components/TagElement.cs:85 | The comparison is zero exactly when the names are equal |
| Ordinal.CompareTransitive | Components/TagElement.cs:85 | If a sorts before b and b before c, then a sorts before c |
| Ordinal.PrecedesTail | Components/TagElement.cs:85 | An equal leading code unit does not decide the ordinal order |
| Ordinal.CompareNegativeIffPrecedes | Components/TagElement.cs:85 | A negative comparison means exactly that a is a proper prefix of b, or has the smaller code unit at the first difference |
| TagIdentity.AsTag | Components/TagElement.cs:84 | `as TagElement` yields a tag exactly for a tag argument, and yields that same tag |
| TagIdentity.Equals | Components/TagElement.cs:88-92 | True only for a tag argument, and then exactly when its name equals this tag's name |
| TagIdentity.OperatorEq | Components/TagElement.cs:99-102 | `==` is true only when both operands are non-null |
| TagIdentity.OperatorNe | Components/TagElement.cs:94-97 | `!=` is true only when both operands are non-null |
| TagIdentity.CompareTo | Components/TagElement.cs:82-86 | Returns 1 for null or a non-tag. Against a tag, the result is zero exactly when the tags are Equals, and negative exactly when this name precedes the other in ordinal order |
| TagIdentity.CompareToAsWritten | Components/TagElement.cs:82-86 | The code as written throws NullReferenceException exactly for a null or non-tag argument, and otherwise returns what CompareTo returns |
| TagIdentity.CompareToNullThrows | Components/TagElement.cs:85 | Against null, the code as written throws where the intended CompareTo returns 1 |
| TagIdentity.ToName | Components/TagElement.cs:109-112 | Converting a tag to a string yields its name, and throws for a null tag |
| TagIdentity.EqualsIsEquivalence | Components/TagElement.cs:88-92 | Equals on tags is reflexive, symmetric and transitive |
| TagIdentity.OperatorsWithNull | Components/TagElement.cs:94-102 | If either operand is null, both `==` and `!=` are false (so null is not `==` to null) |
| TagIdentity.OperatorsOnTags | Components/TagElement.cs:88-102 | On two tags, `!=` is the negation of `==`, and `==` agrees with Equals |
| TagIdentity.CompareToLaws | Components/TagElement.cs:82-92 | For tags: compare(a,a) = 0, compare(a,b) = -compare(b,a), and compare(a,b) = 0 exactly when a Equals b |
| TagIdentity.CompareToTransitive | Components/TagElement.cs:82-86 | CompareTo on tags is transitive |
| TagIdentity.HashCode | Components/TagElement.cs:77-80 | The hash is the string hash of the name, so every tag that is Equals to this one has the same hash |
| TagIdentity.FromName | Components/TagElement.cs:104-107 | Converting a string to a tag gives a tag with that name, no flag set (mode Plain) and colour black |
| TagIdentity.EqualTagsHashAlike | Components/TagElement.cs:77-80 | Tags that are Equals, or compare as zero, hash alike whatever the string hash is |
| TagIdentity.NameRoundTrip | Components/TagElement.cs:104-112 | A name converted to a tag and back is the same name. The tag has no flag set and is black |
| TagIdentity.TagRoundTrip | Components/TagElement.cs:104-112 | A tag converted to its name and back is Equals to the original, but has mode Plain and colour black whatever the original had |

## Findings

| source | as written | input that shows it | evidently intended | confidence | as-written member | corrected member |
|---|---|---|---|---|---|---|
| Components/TagElement.cs:85 | The test `o == null` resolves to the class's own overloaded `==` (lines 99-102). That operator is false whenever an operand is null. So a null `o` falls through to `o.TagName` | `tag.CompareTo(null)`, or `tag.CompareTo("x" as object)`: NullReferenceException | return 1 for null or a non-tag, as `Equals` does with its `(object)te != null` test | high; not executed | TagIdentity.CompareToAsWritten | TagIdentity.CompareTo |

## Left out

- The `SolidColorBrush` wrapper around the colour (constructor and `Color` property, lines 16 and 70-74) is left out. It is a WPF type, and the getter's fresh allocation is not observable logic. The model keeps the brush's `Color` as a four-byte record. A null brush passed to the setter is not modelled.
- `HashCode`: the concrete value of `string.GetHashCode()` is unspecified by the runtime. It is a parameter `stringHash`, and only its use as a function of the name is modelled.
- Names are non-null strings. A tag constructed from a null string is not modelled.
- `Ordinal.Compare` returns only the sign (-1, 0 or 1). The runtime may return any integer of that sign.
- `TagIdentity.CompareTo` returns only that sign too, for the same reason.
- Tags are modelled as immutable values, not as shared mutable objects. Aliasing and unsynchronised writes from several threads are left out.
- The rest of the filtering engine is not part of this model: the locked tag set, the file list and its filter, navigation, background tasks, metadata storage and the shell services. They involve locks, threads and OS I/O.
