/**
 * Serialising a routine to an XML element and reading it back.  Rules are
 * serialised by their own `toXML`/`fromXML`, which are not part of this
 * model: they are passed in as `encode` and `decode`.
 */
module RoutineXml {
  import opened Wrappers
  import opened Text

  /** An XML element: tag, attributes, child elements. */
  datatype Element = Element(tag: string, attrib: map<string, string>, children: seq<Element>)

  /**
   * A routine's address: the builder stores a string (`file:line:column`),
   * and `fromXML` stores the list of parts it split off.
   */
  datatype Address = AddressText(text: string) | AddressParts(parts: seq<string>)

  /** The parts of a routine the XML carries. */
  datatype Routine<R> = Routine(name: Option<string>, address: Address, flags: int, rules: seq<R>)

  datatype XmlError =
    | BadFlags(text: string)     // `int(...)` raised
    | BadRule(element: Element)  // the rule's `fromXML` raised

  /** The one-character strings that iterating over a string yields, in order. */
  function Chars(t: string): (r: seq<string>)
    ensures |r| == |t| && forall i :: 0 <= i < |t| ==> r[i] == [t[i]]
  {
    seq(|t|, i requires 0 <= i < |t| => [t[i]])
  }

  /** What `"|".join` iterates over: a string's characters, or a list's parts. */
  function AddressItems(a: Address): seq<string>
  {
    match a
    case AddressText(t) => Chars(t)
    case AddressParts(parts) => parts
  }

  /** The attributes `toXML` writes: only the truthy fields. */
  function Attributes<R>(r: Routine<R>): map<string, string>
  {
    var none: map<string, string> := map[];
    var flags := if r.flags != 0 then none["flags" := IntToDecimal(r.flags)] else none;
    var items := AddressItems(r.address);
    var address := if items != [] then flags["address" := Join("|", items)] else flags;
    if r.name.Some? && r.name.value != "" then address["name" := r.name.value] else address
  }

  /** `toXML`: a `routine` element with one child per rule, in order. */
  function RoutineElement<R>(r: Routine<R>, encode: R -> Element): (el: Element)
    ensures el.tag == "routine" && |el.children| == |r.rules|
    ensures forall i :: 0 <= i < |r.rules| ==> el.children[i] == encode(r.rules[i])
    ensures "flags" in el.attrib <==> r.flags != 0
    ensures "address" in el.attrib <==> AddressItems(r.address) != []
    ensures "name" in el.attrib <==> r.name.Some? && r.name.value != ""
  {
    Element("routine", Attributes(r), seq(|r.rules|, i requires 0 <= i < |r.rules| => encode(r.rules[i])))
  }

  /** `(el.get(key) or "")`. */
  function AttributeOrEmpty(el: Element, key: string): string
  {
    if key in el.attrib then el.attrib[key] else ""
  }

  /** The rules of the children, each decoded; the first that fails stops it. */
  function DecodeRules<R>(children: seq<Element>, decode: Element -> Option<R>): Result<seq<R>, XmlError>
  {
    if children == [] then Ok([])
    else
      match decode(children[0])
      case None => Err(BadRule(children[0]))
      case Some(first) =>
        var rest :- DecodeRules(children[1..], decode);
        Ok([first] + rest)
  }

  /**
   * The rules read back are one per child, in order, and reading fails
   * exactly when some child does not decode.
   */
  lemma {:induction false} DecodeRulesMeaning<R>(children: seq<Element>, decode: Element -> Option<R>)
    ensures var r := DecodeRules(children, decode);
      && (r.Ok? <==> forall i :: 0 <= i < |children| ==> decode(children[i]).Some?)
      && (r.Ok? ==>
            && |r.value| == |children|
            && forall i :: 0 <= i < |children| ==> decode(children[i]) == Some(r.value[i]))
  {
    if children != [] {
      DecodeRulesMeaning(children[1..], decode);
      assert forall i :: 1 <= i < |children| ==> children[i] == children[1..][i - 1];
    }
  }

  /**
   * `fromXML`: the address is the `|`-separated attribute (a missing one
   * reads as `""`), the name the attribute if present, the flags the
   * attribute as an integer (0 when missing or empty); the element's tag is
   * not checked.
   */
  function ElementRoutine<R>(el: Element, decode: Element -> Option<R>): Result<Routine<R>, XmlError>
  {
    var address := AddressParts(Split(AttributeOrEmpty(el, "address"), '|'));
    var name := if "name" in el.attrib then Some(el.attrib["name"]) else None;
    var flagsText := AttributeOrEmpty(el, "flags");
    var flags :- if flagsText == "" then Ok(0)
                 else if ParseInt(flagsText).Some? then Ok(ParseInt(flagsText).value)
                 else Err(BadFlags(flagsText));
    var rules :- DecodeRules(el.children, decode);
    Ok(Routine(name, address, flags, rules))
  }

  /**
   * What a routine looks like after a trip through XML: an empty name is
   * no name, an address becomes the list of what `"|".join` iterated
   * over (the characters of a string address), and an empty address
   * becomes the one empty component that `"".split("|")` yields.
   */
  function Normalized<R>(r: Routine<R>): Routine<R>
  {
    Routine(if r.name == Some("") then None else r.name,
            AddressParts(if AddressItems(r.address) == [] then [""] else AddressItems(r.address)),
            r.flags, r.rules)
  }

  /**
   * Reading back what `toXML` wrote gives the routine, normalised, when the
   * rules round-trip and no address component contains `|`.
   */
  lemma RoundTrip<R>(r: Routine<R>, encode: R -> Element, decode: Element -> Option<R>)
    requires forall x :: decode(encode(x)) == Some(x)
    requires forall i :: 0 <= i < |AddressItems(r.address)| ==> '|' !in AddressItems(r.address)[i]
    ensures ElementRoutine(RoutineElement(r, encode), decode) == Ok(Normalized(r))
  {
    var el := RoutineElement(r, encode);
    AttributesRead(r, el);
    if r.flags != 0 {
      IntToDecimalRoundTrip(r.flags);
      assert IntToDecimal(r.flags) != "";
    }
    if AddressItems(r.address) != [] {
      SplitJoin(AddressItems(r.address), '|');
    }
    var rules := DecodeRules(el.children, decode);
    DecodeRulesMeaning(el.children, decode);
    assert rules.value == r.rules;
  }

  /** What `fromXML` finds in the attributes `toXML` wrote. */
  lemma AttributesRead<R>(r: Routine<R>, el: Element)
    requires el.attrib == Attributes(r)
    ensures AttributeOrEmpty(el, "flags") == if r.flags != 0 then IntToDecimal(r.flags) else ""
    ensures AttributeOrEmpty(el, "address")
      == if AddressItems(r.address) != [] then Join("|", AddressItems(r.address)) else ""
    ensures ("name" in el.attrib) == (r.name.Some? && r.name.value != "")
    ensures "name" in el.attrib ==> el.attrib["name"] == r.name.value
  {
  }

  /** A routine that has made the trip once comes back unchanged. */
  lemma NormalizedIsStable<R>(r: Routine<R>)
    ensures Normalized(Normalized(r)) == Normalized(r)
  {
  }

  /** An address component holding `|` is split apart on the way back. */
  lemma PipeInAddressSplits(encode: int -> Element, decode: Element -> Option<int>)
    ensures var r := Routine(None, AddressParts(["a|b"]), 0, []);
      var back := ElementRoutine(RoutineElement(r, encode), decode);
      back.Ok? && back.value.address == AddressParts(["a", "b"])
  {
    var r: Routine<int> := Routine(None, AddressParts(["a|b"]), 0, []);
    assert RoutineElement(r, encode).attrib["address"] == "a|b";
    assert Join("|", ["a", "b"]) == "a|b";
    SplitJoin(["a", "b"], '|');
  }

  /**
   * A string address, as the builder sets it, is written with `|` between
   * its characters and read back as the list of its characters, not as
   * the one string it was.
   */
  lemma TextAddressComesBackAsCharacters<R>(r: Routine<R>, encode: R -> Element, decode: Element -> Option<R>)
    requires forall x :: decode(encode(x)) == Some(x)
    requires r.address.AddressText? && r.address.text != [] && '|' !in r.address.text
    ensures var back := ElementRoutine(RoutineElement(r, encode), decode);
      && back.Ok?
      && back.value.address == AddressParts(Chars(r.address.text))
      && (|r.address.text| > 1 ==> back.value.address != AddressParts([r.address.text]))
  {
    var t := r.address.text;
    forall i | 0 <= i < |AddressItems(r.address)|
      ensures '|' !in AddressItems(r.address)[i]
    {
      assert AddressItems(r.address)[i] == [t[i]];
    }
    RoundTrip(r, encode, decode);
  }

  /** `toXML` as written: the attributes, then the rules appended one by one. */
  method ToXml<R>(r: Routine<R>, encode: R -> Element) returns (el: Element)
    ensures el == RoutineElement(r, encode)
  {
    el := Element("routine", map[], []);
    if r.flags != 0 {
      el := el.(attrib := el.attrib["flags" := IntToDecimal(r.flags)]);
    }
    var items := AddressItems(r.address);
    if items != [] {
      el := el.(attrib := el.attrib["address" := Join("|", items)]);
    }
    if r.name.Some? && r.name.value != "" {
      el := el.(attrib := el.attrib["name" := r.name.value]);
    }
    assert el.attrib == Attributes(r);
    var children := EncodeRules(r.rules, encode);
    el := el.(children := children);
    assert el.children == RoutineElement(r, encode).children;
  }

  /** The loop of `toXML`: one child per rule, in rule order. */
  method EncodeRules<R>(rules: seq<R>, encode: R -> Element) returns (children: seq<Element>)
    ensures |children| == |rules|
    ensures forall i :: 0 <= i < |rules| ==> children[i] == encode(rules[i])
  {
    children := [];
    var i := 0;
    while i < |rules|
      invariant 0 <= i <= |rules| && |children| == i
      invariant forall j :: 0 <= j < i ==> children[j] == encode(rules[j])
    {
      children := children + [encode(rules[i])];
      i := i + 1;
    }
  }

  /** `fromXML` as written: the routine first, then each child's rule added in turn. */
  method FromXml<R>(el: Element, decode: Element -> Option<R>) returns (r: Result<Routine<R>, XmlError>)
    ensures r == ElementRoutine(el, decode)
  {
    var flagsText := AttributeOrEmpty(el, "flags");
    var flags := 0;
    if flagsText != "" {
      var parsed := ParseInt(flagsText);
      if parsed.None? {
        return Err(BadFlags(flagsText));
      }
      flags := parsed.value;
    }
    var name := if "name" in el.attrib then Some(el.attrib["name"]) else None;
    var address := AddressParts(Split(AttributeOrEmpty(el, "address"), '|'));
    var rules := AddRules(el.children, decode);
    if rules.Err? {
      return Err(rules.error);
    }
    r := Ok(Routine(name, address, flags, rules.value));
  }

  /** The loop of `fromXML`: each child decoded and added, in order. */
  method AddRules<R>(children: seq<Element>, decode: Element -> Option<R>) returns (r: Result<seq<R>, XmlError>)
    ensures r == DecodeRules(children, decode)
  {
    var rules: seq<R> := [];
    var i := 0;
    assert children[0..] == children;
    var all := DecodeRules(children, decode);
    if all.Ok? {
      assert rules + all.value == all.value;
    }
    while i < |children|
      invariant 0 <= i <= |children|
      invariant all == (var rest := DecodeRules(children[i..], decode);
                        if rest.Ok? then Ok(rules + rest.value) else rest)
    {
      var rule := decode(children[i]);
      assert children[i..][0] == children[i];
      assert children[i..][1..] == children[i + 1..];
      if rule.None? {
        return Err(BadRule(children[i]));
      }
      var rest := DecodeRules(children[i + 1..], decode);
      if rest.Ok? {
        assert rules + ([rule.value] + rest.value) == (rules + [rule.value]) + rest.value;
      }
      rules := rules + [rule.value];
      i := i + 1;
    }
    assert children[i..] == [];
    assert rules + [] == rules;
    r := Ok(rules);
  }
}
