/**
 * Element attributes as the DrawingML serializers of `src/oxml` write and read
 * them.  A `to_xml` pushes `name="value"` for each optional property that is
 * set, in a fixed order, and writes `<tag/>` when nothing was pushed; a
 * `parse` reads each property back with `XmlElement::attr(name)`.
 *
 * An element's attributes are a list of name/value pairs in document order,
 * and a lookup returns the first value under the name.
 */
module XmlAttrs {
  import opened Wrappers
  import opened Strings
  import opened XmlText

  /** An element's attributes, in document order. */
  type AttrList = seq<(string, string)>

  /** `XmlElement::attr`: the value of the first attribute with the name. */
  function Lookup(attrs: AttrList, name: string): (r: Option<string>)
    ensures r.Some? ==> exists i :: 0 <= i < |attrs| && attrs[i] == (name, r.value)
  {
    if attrs == [] then None
    else if attrs[0].0 == name then Some(attrs[0].1)
    else
      var r := Lookup(attrs[1..], name);
      assert r.Some? ==> exists i :: 1 <= i < |attrs| && attrs[i] == (name, r.value);
      r
  }

  /** One optional attribute: its name and, when it is written, its value. */
  type Slot = (string, Option<string>)

  /** The attributes pushed for the slots: each slot that has a value, in order. */
  function Present(slots: seq<Slot>): (attrs: AttrList)
    ensures |attrs| <= |slots|
  {
    if slots == [] then []
    else (if slots[0].1.Some? then [(slots[0].0, slots[0].1.value)] else []) + Present(slots[1..])
  }

  predicate DistinctNames(slots: seq<Slot>) {
    forall i, j :: 0 <= i < j < |slots| ==> slots[i].0 != slots[j].0
  }

  /** Reading a slot's name back gives the slot's value, or nothing when it was not written. */
  lemma {:induction false} SlotRead(slots: seq<Slot>, k: nat)
    requires DistinctNames(slots) && k < |slots|
    ensures Lookup(Present(slots), slots[k].0) == slots[k].1
    decreases |slots|
  {
    var head: AttrList := if slots[0].1.Some? then [(slots[0].0, slots[0].1.value)] else [];
    if k == 0 {
      if slots[0].1.None? {
        SlotAbsent(slots[1..], slots[0].0);
        assert Present(slots) == Present(slots[1..]);
      }
    } else {
      SlotRead(slots[1..], k - 1);
      assert slots[1..][k - 1] == slots[k];
      if slots[0].1.Some? {
        assert Present(slots)[0] == (slots[0].0, slots[0].1.value) && Present(slots)[1..] == Present(slots[1..]);
      } else {
        assert Present(slots) == Present(slots[1..]);
      }
    }
  }

  /** A name no slot has is not written. */
  lemma {:induction false} SlotAbsent(slots: seq<Slot>, name: string)
    requires forall i :: 0 <= i < |slots| ==> slots[i].0 != name
    ensures Lookup(Present(slots), name) == None
    decreases |slots|
  {
    if slots != [] {
      SlotAbsent(slots[1..], name);
      if slots[0].1.Some? {
        assert Present(slots)[0].0 != name && Present(slots)[1..] == Present(slots[1..]);
      } else {
        assert Present(slots) == Present(slots[1..]);
      }
    }
  }

  /** Nothing is written exactly when no slot has a value. */
  lemma {:induction false} PresentEmpty(slots: seq<Slot>)
    ensures Present(slots) == [] <==> forall i :: 0 <= i < |slots| ==> slots[i].1.None?
    decreases |slots|
  {
    if slots != [] {
      PresentEmpty(slots[1..]);
      assert forall i :: 1 <= i < |slots| ==> slots[i] == slots[1..][i - 1];
    }
  }

  /** The attributes as written: `name="value"` each. */
  function Written(attrs: AttrList): (w: seq<string>)
    ensures |w| == |attrs| && forall i :: 0 <= i < |attrs| ==> w[i] == Attr(attrs[i].0, attrs[i].1)
  {
    seq(|attrs|, i requires 0 <= i < |attrs| => Attr(attrs[i].0, attrs[i].1))
  }

  /** An empty element: `<tag/>` without attributes, `<tag a="…" b="…"/>` with them. */
  function EmptyElement(tag: string, attrs: AttrList): string {
    if attrs == [] then "<" + tag + "/>" else "<" + tag + " " + Join(Written(attrs), " ") + "/>"
  }

  /** The element is the bare `<tag/>` exactly when no slot has a value. */
  lemma BareElement(tag: string, slots: seq<Slot>)
    ensures EmptyElement(tag, Present(slots)) == "<" + tag + "/>" <==> forall i :: 0 <= i < |slots| ==> slots[i].1.None?
  {
    PresentEmpty(slots);
    var attrs := Present(slots);
    if attrs != [] {
      var j := Join(Written(attrs), " ");
      assert |EmptyElement(tag, attrs)| == |tag| + 4 + |j|;
    }
  }

  /** An unsigned value written in decimal. */
  function NumText(v: Option<U32>): Option<string> {
    if v.Some? then Some(NatToString(v.value)) else None
  }

  /** A signed value written in decimal. */
  function IntText(v: Option<I32>): Option<string> {
    if v.Some? then Some(IntToString(v.value)) else None
  }

  /** A flag written as "1" when on and left out when off. */
  function FlagText(on: bool): Option<string> {
    if on then Some("1") else None
  }

  /** `attr(..).and_then(|v| v.parse::<u32>().ok())`. */
  function NumOf(v: Option<string>): (r: Option<U32>)
    ensures v.None? ==> r.None?
  {
    if v.None? then None
    else match ParseU32(v.value)
      case Some(n) => Some(n)
      case None => None
  }

  /** `attr(..).and_then(|v| v.parse::<i32>().ok())`. */
  function IntOf(v: Option<string>): (r: Option<I32>)
    ensures v.None? ==> r.None?
  {
    if v.None? then None
    else match ParseI32(v.value)
      case Some(n) => Some(n)
      case None => None
  }

  /** `attr(..).map(|v| v == "1").unwrap_or(false)`. */
  function FlagOf(v: Option<string>): bool {
    v == Some("1")
  }

  /** Each written form reads back as the value it was written from. */
  lemma TextsRead(n: Option<U32>, i: Option<I32>, on: bool)
    ensures NumOf(NumText(n)) == n && IntOf(IntText(i)) == i && FlagOf(FlagText(on)) == on
  {
    if n.Some? {
      ParseU32Format(n.value);
    }
    if i.Some? {
      ParseI32Format(i.value);
    }
  }
}
