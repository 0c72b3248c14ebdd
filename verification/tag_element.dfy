/** The state of a `TagElement`: its name, its three filtering flags and its
    display colour, and the property setters that change them. */
module TagElement {
  import opened Clr

  /** One channel of a WPF `Color`. */
  type Byte = b: int | 0 <= b < 0x100

  /** A WPF `Color` as its alpha, red, green and blue channels. */
  datatype Color = Color(a: Byte, r: Byte, g: Byte, b: Byte)

  /** `Colors.Black`, #FF000000. */
  const Black: Color := Color(0xFF, 0, 0, 0)

  /** A tag: `TagName` and the backing fields `_include`, `_exclude`,
      `_union` and `_color`. */
  datatype Tag = Tag(name: Name, includeFlag: bool, excludeFlag: bool, unionFlag: bool, color: Color)

  /** The filtering mode a tag stands for: no flag set, required for
      matching, excluded from all matches, or optional for all matches. */
  datatype Mode = Plain | Include | Exclude | Union

  /** The invariant the setters keep: no two flags are set together. */
  predicate AtMostOne(t: Tag) {
    && !(t.includeFlag && t.excludeFlag)
    && !(t.includeFlag && t.unionFlag)
    && !(t.excludeFlag && t.unionFlag)
  }

  /** The mode encoded by the three flags of a tag that keeps the invariant. */
  function ModeOf(t: Tag): (m: Mode)
    requires AtMostOne(t)
    ensures t.includeFlag <==> m == Include
    ensures t.excludeFlag <==> m == Exclude
    ensures t.unionFlag <==> m == Union
  {
    if t.includeFlag then Include
    else if t.excludeFlag then Exclude
    else if t.unionFlag then Union
    else Plain
  }

  /** Reference machine over modes: writing `value` to the flag of `flag`.
      True selects that mode; false leaves no mode if it was selected and
      changes nothing otherwise. */
  function Assign(m: Mode, flag: Mode, value: bool): Mode
    requires flag != Plain
  {
    if value then flag
    else if m == flag then Plain
    else m
  }

  /** `new TagElement(name)`. */
  function New(name: Name): (t: Tag)
    ensures t.name == name && t.color == Black
    ensures AtMostOne(t) && ModeOf(t) == Plain
  {
    Tag(name, false, false, false, Black)
  }

  /** The `Include` setter. */
  function SetInclude(t: Tag, value: bool): (r: Tag)
    ensures r.name == t.name && r.color == t.color
    ensures r.includeFlag == value
    ensures value == t.includeFlag ==> r == t
    ensures value != t.includeFlag ==> !r.excludeFlag && !r.unionFlag
    ensures AtMostOne(t) ==> AtMostOne(r) && ModeOf(r) == Assign(ModeOf(t), Include, value)
  {
    if value == t.includeFlag then t
    else t.(includeFlag := value, excludeFlag := false, unionFlag := false)
  }

  /** The `Exclude` setter. */
  function SetExclude(t: Tag, value: bool): (r: Tag)
    ensures r.name == t.name && r.color == t.color
    ensures r.excludeFlag == value
    ensures value == t.excludeFlag ==> r == t
    ensures value != t.excludeFlag ==> !r.includeFlag && !r.unionFlag
    ensures AtMostOne(t) ==> AtMostOne(r) && ModeOf(r) == Assign(ModeOf(t), Exclude, value)
  {
    if value == t.excludeFlag then t
    else t.(includeFlag := false, excludeFlag := value, unionFlag := false)
  }

  /** The `Union` setter. */
  function SetUnion(t: Tag, value: bool): (r: Tag)
    ensures r.name == t.name && r.color == t.color
    ensures r.unionFlag == value
    ensures value == t.unionFlag ==> r == t
    ensures value != t.unionFlag ==> !r.includeFlag && !r.excludeFlag
    ensures AtMostOne(t) ==> AtMostOne(r) && ModeOf(r) == Assign(ModeOf(t), Union, value)
  {
    if value == t.unionFlag then t
    else t.(includeFlag := false, excludeFlag := false, unionFlag := value)
  }

  /** The `Color` setter, given the colour of the brush it is passed. */
  function SetColor(t: Tag, c: Color): (r: Tag)
    ensures r.color == c
    ensures r.name == t.name && r.includeFlag == t.includeFlag && r.excludeFlag == t.excludeFlag && r.unionFlag == t.unionFlag
  {
    t.(color := c)
  }

  /** One write to a settable property of a tag. */
  datatype Assignment =
    | IncludeTo(value: bool)
    | ExcludeTo(value: bool)
    | UnionTo(value: bool)
    | ColorTo(color: Color)

  function Apply(t: Tag, a: Assignment): (r: Tag)
    ensures r.name == t.name
    ensures AtMostOne(t) ==> AtMostOne(r) && ModeOf(r) == Step(ModeOf(t), a)
  {
    match a
    case IncludeTo(v) => SetInclude(t, v)
    case ExcludeTo(v) => SetExclude(t, v)
    case UnionTo(v) => SetUnion(t, v)
    case ColorTo(c) => SetColor(t, c)
  }

  /** The effect of one write on the reference machine. */
  function Step(m: Mode, a: Assignment): Mode {
    match a
    case IncludeTo(v) => Assign(m, Include, v)
    case ExcludeTo(v) => Assign(m, Exclude, v)
    case UnionTo(v) => Assign(m, Union, v)
    case ColorTo(_) => m
  }

  /** A tag after a sequence of property writes, in order. */
  function Run(t: Tag, script: seq<Assignment>): Tag
    decreases |script|
  {
    if |script| == 0 then t else Run(Apply(t, script[0]), script[1..])
  }

  /** The reference machine after a sequence of writes. */
  function RunModes(m: Mode, script: seq<Assignment>): Mode
    decreases |script|
  {
    if |script| == 0 then m else RunModes(Step(m, script[0]), script[1..])
  }

  /** From any state that keeps the invariant, every sequence of writes keeps
      it, keeps the name, and moves the mode as the reference machine does. */
  lemma {:induction false} RunRefinesModes(t: Tag, script: seq<Assignment>)
    requires AtMostOne(t)
    ensures Run(t, script).name == t.name
    ensures AtMostOne(Run(t, script))
    ensures ModeOf(Run(t, script)) == RunModes(ModeOf(t), script)
    decreases |script|
  {
    if |script| > 0 {
      RunRefinesModes(Apply(t, script[0]), script[1..]);
    }
  }

  /** Every tag reachable from the constructor has at most one flag set and
      the name it was constructed with. */
  lemma FreshTagKeepsInvariant(name: Name, script: seq<Assignment>)
    ensures Run(New(name), script).name == name
    ensures AtMostOne(Run(New(name), script))
    ensures ModeOf(Run(New(name), script)) == RunModes(Plain, script)
  {
    RunRefinesModes(New(name), script);
  }

  /** The invariant is not inductive on its own: a state with two flags set is
      left broken by a write of the value a flag already has. */
  lemma BrokenStateStaysBroken()
    ensures exists t: Tag :: !AtMostOne(t) && !AtMostOne(SetInclude(t, true))
  {
    var t := Tag([], true, true, false, Black);
    assert !AtMostOne(SetInclude(t, true));
  }
}
