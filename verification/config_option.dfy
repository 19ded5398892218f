/** A configuration option. Its category, long name, short names and
    description live in one character buffer laid out as
    `<category>.<long-name>,<short-names>,<description>`, with the positions
    of the three separators stored next to it. The value pointer and the
    memory behind it are modelled as an optional address into a memory
    function; the meta-state is reduced to its type name and whether it has
    a getter. */
module ConfigOptions {
  import opened Wrappers
  import Seqs

  /** The separators are stored as `uint16_t`. */
  const MaxBufSize: nat := 65535

  type Address = nat
  type ConfigValue = nat
  type Memory = Address -> ConfigValue

  datatype Meta = Meta(typeName: string, hasGetter: bool)

  datatype ConfigOption = ConfigOption(
    buf: string,
    categorySep: nat,
    longNameSep: nat,
    shortNamesSep: nat,
    bufSize: nat,
    meta: Meta,
    value: Option<Address>)

  /** The layout invariant of a constructed option. */
  predicate Valid(o: ConfigOption) {
    && o.bufSize == |o.buf| <= MaxBufSize
    && o.categorySep < o.longNameSep < o.shortNamesSep < o.bufSize
    && o.buf[o.categorySep] == '.'
    && o.buf[o.longNameSep] == ','
    && o.buf[o.shortNamesSep] == ','
  }

  /** The name is split at its first comma: long name before it, short
      names after it, and no short names when there is no comma. */
  function SplitName(name: string): (r: (string, string))
    ensures ',' !in r.0
    ensures ',' in name ==> name == r.0 + "," + r.1
    ensures ',' !in name ==> r.0 == name && r.1 == ""
  {
    var comma := Seqs.Find(name, ',');
    if comma == |name| then (name, "")
    else
      assert name == name[..comma] + "," + name[comma + 1..];
      assert forall j :: 0 <= j < comma ==> name[..comma][j] == name[j];
      (name[..comma], name[comma + 1..])
  }

  /** The buffer size the constructor computes: one separator between each
      of the four fields plus their lengths. */
  function TotalSize(category: string, name: string, description: string): (n: nat)
    ensures n == |category| + |SplitName(name).0| + |SplitName(name).1| + |description| + 3
    ensures ',' in name ==> n == |category| + |name| + |description| + 2
    ensures ',' !in name ==> n == |category| + |name| + |description| + 3
  {
    var (long, short) := SplitName(name);
    3 + |category| + |long| + |short| + |description|
  }

  /** The constructor. Its size assertion is a precondition here. */
  function Make(category: string, name: string, description: string, meta: Meta, value: Option<Address>): (o: ConfigOption)
    requires TotalSize(category, name, description) <= MaxBufSize
    ensures Valid(o)
    ensures o.bufSize == TotalSize(category, name, description)
    ensures o.meta == meta && o.value == value
  {
    var (long, short) := SplitName(name);
    var buf := category + "." + long + "," + short + "," + description;
    var c := |category|;
    var l := c + 1 + |long|;
    var s := l + 1 + |short|;
    assert buf[c] == '.' && buf[l] == ',' && buf[s] == ',';
    ConfigOption(buf, c, l, s, |buf|, meta, value)
  }

  /** `buf_slice(from, to)`: the characters in `[from, to)`; the source
      asserts `from <= to`. */
  function Slice(o: ConfigOption, from: nat, to: nat): (r: string)
    requires Valid(o) && from <= to <= o.bufSize
    ensures |r| == to - from
    ensures forall k :: 0 <= k < |r| ==> r[k] == o.buf[from + k]
  {
    o.buf[from..to]
  }

  /** Where the category starts: one past a leading '?'. */
  function CategoryStart(o: ConfigOption): (i: nat)
    requires Valid(o)
    ensures i <= o.categorySep
  {
    if o.buf[0] == '?' then 1 else 0
  }

  function Category(o: ConfigOption): (r: string)
    requires Valid(o)
  {
    Slice(o, CategoryStart(o), o.categorySep)
  }

  function LongName(o: ConfigOption): (r: string)
    requires Valid(o)
  {
    Slice(o, o.categorySep + 1, o.longNameSep)
  }

  function ShortNames(o: ConfigOption): (r: string)
    requires Valid(o)
  {
    Slice(o, o.longNameSep + 1, o.shortNamesSep)
  }

  function Description(o: ConfigOption): (r: string)
    requires Valid(o)
  {
    Slice(o, o.shortNamesSep + 1, o.bufSize)
  }

  function FullName(o: ConfigOption): (r: string)
    requires Valid(o)
  {
    Slice(o, CategoryStart(o), o.longNameSep)
  }

  /** A category with a leading '?' removed. */
  function StripQuestionMark(category: string): (r: string)
    ensures |category| > 0 && category[0] == '?' ==> category == "?" + r
    ensures !(|category| > 0 && category[0] == '?') ==> r == category
  {
    if |category| > 0 && category[0] == '?' then category[1..] else category
  }

  /** Where the four fields of `a.b,c,d` sit. */
  lemma Layout(a: string, b: string, c: string, d: string)
    ensures var buf := a + "." + b + "," + c + "," + d;
      var l := |a| + 1 + |b|;
      var s := l + 1 + |c|;
      && |buf| == s + 1 + |d|
      && buf[..|a|] == a
      && buf[|a| + 1..l] == b
      && buf[l + 1..s] == c
      && buf[s + 1..] == d
      && buf[..l] == a + "." + b
  {
    var buf := a + "." + b + "," + c + "," + d;
    var l := |a| + 1 + |b|;
    assert buf == (a + "." + b) + ("," + c + "," + d);
    assert buf[..l] == a + "." + b;
  }

  /** The accessors give back what the constructor was given: the category
      without its leading '?', the two halves of the name, the description,
      and the full name "category.long". */
  lemma AccessorsRoundTrip(category: string, name: string, description: string, meta: Meta, value: Option<Address>)
    requires TotalSize(category, name, description) <= MaxBufSize
    ensures var o := Make(category, name, description, meta, value);
      && Category(o) == StripQuestionMark(category)
      && LongName(o) == SplitName(name).0
      && ShortNames(o) == SplitName(name).1
      && Description(o) == description
      && FullName(o) == StripQuestionMark(category) + "." + SplitName(name).0
  {
    var o := Make(category, name, description, meta, value);
    var long := SplitName(name).0;
    var short := SplitName(name).1;
    MadeLayout(category, name, description, meta, value);
    FieldsRoundTrip(category, long, short, description, o);
    CategoryRoundTrip(category, long, short, description, o);
  }

  lemma MadeLayout(category: string, name: string, description: string, meta: Meta, value: Option<Address>)
    requires TotalSize(category, name, description) <= MaxBufSize
    ensures var o := Make(category, name, description, meta, value);
      var long := SplitName(name).0;
      var short := SplitName(name).1;
      && o.buf == category + "." + long + "," + short + "," + description
      && o.categorySep == |category|
      && o.longNameSep == |category| + 1 + |long|
      && o.shortNamesSep == |category| + 1 + |long| + 1 + |short|
  {
  }

  /** The long name, the short names and the description. */
  lemma FieldsRoundTrip(category: string, long: string, short: string, description: string, o: ConfigOption)
    requires Valid(o)
    requires o.buf == category + "." + long + "," + short + "," + description
    requires o.categorySep == |category| && o.longNameSep == |category| + 1 + |long|
    requires o.shortNamesSep == |category| + 1 + |long| + 1 + |short|
    ensures LongName(o) == long && ShortNames(o) == short && Description(o) == description
  {
    Layout(category, long, short, description);
  }

  /** The category and full name with a leading '?' dropped. */
  lemma CategoryRoundTrip(category: string, long: string, short: string, description: string, o: ConfigOption)
    requires Valid(o)
    requires o.buf == category + "." + long + "," + short + "," + description
    requires o.categorySep == |category| && o.longNameSep == |category| + 1 + |long|
    ensures Category(o) == StripQuestionMark(category)
    ensures FullName(o) == StripQuestionMark(category) + "." + long
  {
    Layout(category, long, short, description);
    var l := |category| + 1 + |long|;
    var buf := o.buf;
    if |category| > 0 && category[0] == '?' {
      assert CategoryStart(o) == 1;
      assert buf[1..|category|] == buf[..|category|][1..];
      assert buf[1..l] == buf[..l][1..];
      assert (category + "." + long)[1..] == category[1..] + "." + long;
    } else {
      assert |category| > 0 ==> buf[0] == buf[..|category|][0];
      assert CategoryStart(o) == 0;
    }
  }

  /** `has_flat_cli_name()`. */
  predicate HasFlatCliName(o: ConfigOption)
    requires Valid(o)
  {
    o.buf[0] == '?' || Category(o) == "global"
  }

  /** `is_flag()`. */
  predicate IsFlag(o: ConfigOption) {
    o.meta.typeName == "boolean"
  }

  /** An option has a flat command-line name iff its category was given
      with a leading '?' or is "global"; it is a flag iff its type is
      "boolean". */
  lemma FlatNameAndFlag(category: string, name: string, description: string, meta: Meta, value: Option<Address>)
    requires TotalSize(category, name, description) <= MaxBufSize
    ensures var o := Make(category, name, description, meta, value);
      && (HasFlatCliName(o) <==> (|category| > 0 && category[0] == '?') || StripQuestionMark(category) == "global")
      && (IsFlag(o) <==> meta.typeName == "boolean")
  {
    var o := Make(category, name, description, meta, value);
    AccessorsRoundTrip(category, name, description, meta, value);
    assert |category| > 0 ==> o.buf[0] == category[0];
    assert |category| == 0 ==> o.buf[0] == '.';
  }

  // -- value access -----------------------------------------------------------

  /** `store(x)`: writes through the value pointer, if there is one. */
  function Store(o: ConfigOption, mem: Memory, x: ConfigValue): (r: Memory)
    ensures o.value.None? ==> forall a :: r(a) == mem(a)
    ensures o.value.Some? ==> r(o.value.value) == x
    ensures forall a :: (o.value.None? || a != o.value.value) ==> r(a) == mem(a)
  {
    match o.value
    case None => mem
    case Some(addr) => a => if a == addr then x else mem(a)
  }

  /** `get()`: the value behind the pointer, or none when the pointer or
      the getter is null. */
  function Get(o: ConfigOption, mem: Memory): (r: Option<ConfigValue>)
    ensures r.None? <==> o.value.None? || !o.meta.hasGetter
    ensures r.Some? ==> r.value == mem(o.value.value)
  {
    if o.value.Some? && o.meta.hasGetter then Some(mem(o.value.value)) else None
  }

  /** Reading back a stored value returns it; an option without a value
      pointer neither stores nor reads. */
  lemma StoreThenGet(o: ConfigOption, mem: Memory, x: ConfigValue)
    ensures o.value.Some? && o.meta.hasGetter ==> Get(o, Store(o, mem, x)) == Some(x)
    ensures o.value.None? ==> Get(o, Store(o, mem, x)) == None
  {
  }

  // -- copy, assignment and swap ---------------------------------------------

  /** The copy constructor: separators, size, meta-state and value pointer
      are copied and the buffer is copied character by character. */
  method Copy(other: ConfigOption) returns (r: ConfigOption)
    requires Valid(other)
    ensures r == other
  {
    var buf: string := [];
    var i := 0;
    while i < other.bufSize
      invariant i <= other.bufSize
      invariant buf == other.buf[..i]
    {
      buf := buf + [other.buf[i]];
      i := i + 1;
    }
    assert buf == other.buf;
    r := ConfigOption(buf, other.categorySep, other.longNameSep, other.shortNamesSep, other.bufSize, other.meta, other.value);
  }

  /** `swap(first, second)`: every field is exchanged. */
  function Swap(first: ConfigOption, second: ConfigOption): (r: (ConfigOption, ConfigOption))
  {
    (ConfigOption(second.buf, second.categorySep, second.longNameSep, second.shortNamesSep, second.bufSize, second.meta, second.value),
     ConfigOption(first.buf, first.categorySep, first.longNameSep, first.shortNamesSep, first.bufSize, first.meta, first.value))
  }

  /** Swapping exchanges the two options whole, and swapping back restores
      them. */
  lemma SwapExchanges(a: ConfigOption, b: ConfigOption)
    ensures Swap(a, b) == (b, a)
    ensures Swap(Swap(a, b).0, Swap(a, b).1) == (a, b)
  {
  }

  /** Copy assignment: copy `other` into a temporary and swap it with the
      target. Returns the new target and the temporary, which now holds the
      old target and is destroyed. */
  method Assign(self: ConfigOption, other: ConfigOption) returns (r: ConfigOption, discarded: ConfigOption)
    requires Valid(other)
    ensures r == other && discarded == self
  {
    var tmp := Copy(other);
    var swapped := Swap(self, tmp);
    SwapExchanges(self, tmp);
    r, discarded := swapped.0, swapped.1;
  }
}
