/**
 * The two callbacks the response converter hands to the XML library: the
 * text callback, which coerces an element's text to a number, a boolean or a
 * string and hoists it into the element's own slot in its grandparent, and
 * the CDATA callback, which hoists the raw text without coercion.
 *
 * The grandparent is an object of the library's compact tree: an ordered list
 * of property names and a value per name, updated in place. A slot that holds
 * repeated sibling elements holds an array, also updated in place.
 */
module XmlText {
  import opened Wrappers
  import opened Decimal

  /** A value of the compact tree. Numbers are non-negative integers. */
  datatype Node =
    | Undefined
    | Null
    | Bool(b: bool)
    | Num(n: nat)
    | Str(s: string)
    | Arr(items: array<Node>)
    | Obj(element: Container)

  /** A JavaScript object of the tree: property names in insertion order and their values. */
  class Container {
    var keys: seq<string>
    var slots: map<string, Node>

    /** Every name occurs once, and the names are exactly the properties that hold a value. */
    ghost predicate Valid()
      reads this
    {
      (forall i, j :: 0 <= i < j < |keys| ==> keys[i] != keys[j]) &&
      (forall name :: name in slots <==> name in keys)
    }

    constructor ()
      ensures keys == [] && slots == map[]
      ensures Valid()
    {
      keys := [];
      slots := map[];
    }

    /** Property read `o[name]`: undefined when there is no such property. */
    function Get(name: string): (v: Node)
      reads this
      ensures name in slots ==> v == slots[name]
      ensures name !in slots ==> v == Undefined
    {
      if name in slots then slots[name] else Undefined
    }

    /** Property write `o[name] = v`: an existing property keeps its place, a new one goes last. */
    method Set(name: string, v: Node)
      requires Valid()
      modifies this
      ensures Valid()
      ensures keys == if name in old(slots) then old(keys) else old(keys) + [name]
      ensures slots == old(slots)[name := v]
    {
      if name !in slots {
        keys := keys + [name];
      }
      slots := slots[name := v];
    }
  }

  /**
   * `grandParentKeys[grandParentKeys.length - 1]` used as a property name: the
   * last key, or, when there is none, `undefined`, which names the property
   * "undefined".
   */
  function LastKeyName(keys: seq<string>): (name: string)
    ensures keys != [] ==> name == keys[|keys| - 1]
    ensures keys == [] ==> name == "undefined"
  {
    if keys == [] then "undefined" else keys[|keys| - 1]
  }

  // ------------------------------------------------------------- nativeType

  /** The white space and line terminators `Number` skips around a numeral. */
  predicate IsJsSpace(c: char) {
    c == '\t' || c == '\n' || c == '\U{000B}' || c == '\U{000C}' || c == '\r' || c == ' '
    || c == '\U{00A0}' || c == '\U{1680}' || ('\U{2000}' <= c <= '\U{200A}')
    || c == '\U{2028}' || c == '\U{2029}' || c == '\U{202F}' || c == '\U{205F}'
    || c == '\U{3000}' || c == '\U{FEFF}'
  }

  function TrimStart(s: string): (r: string)
    ensures |r| <= |s| && r == s[|s| - |r|..]
    ensures r == [] || !IsJsSpace(r[0])
    ensures s != [] && !IsJsSpace(s[0]) ==> r == s
  {
    if s != [] && IsJsSpace(s[0]) then TrimStart(s[1..]) else s
  }

  function TrimEnd(s: string): (r: string)
    ensures |r| <= |s| && r == s[..|r|]
    ensures r == [] || !IsJsSpace(r[|r| - 1])
    ensures s != [] && !IsJsSpace(s[|s| - 1]) ==> r == s
  {
    if s != [] && IsJsSpace(s[|s| - 1]) then TrimEnd(s[..|s| - 1]) else s
  }

  /** The string with the white space at both ends removed. */
  function Trim(s: string): string {
    TrimEnd(TrimStart(s))
  }

  /**
   * `Number(s)` where the result is a non-negative integer: blank text is 0,
   * a run of decimal digits (leading zeros allowed) between optional white
   * space is its value, and anything else is NaN, here `None`.
   */
  function NumberValue(s: string): (r: Option<nat>)
    ensures r.Some? <==> AllDigits(Trim(s))
    ensures r.Some? ==> r.value == DigitsValue(Trim(s))
  {
    var t := Trim(s);
    if t == [] then Some(0)
    else if AllDigits(t) then Some(DigitsValue(t))
    else None
  }

  /** `toLowerCase` on the ASCII letters. */
  function LowerAscii(s: string): (r: string)
    ensures |r| == |s|
    ensures forall i :: 0 <= i < |s| ==> r[i] == LowerChar(s[i])
  {
    if s == [] then [] else [LowerChar(s[0])] + LowerAscii(s[1..])
  }

  function LowerChar(c: char): char {
    if 'A' <= c <= 'Z' then (c as int - 'A' as int + 'a' as int) as char else c
  }

  /** `nativeType(value)`: a number when `Number` accepts the text, else a
      boolean for any casing of "true" or "false", else the text itself. */
  function NativeType(value: string): (r: Node)
    ensures r.Num? || r.Bool? || r.Str?
    ensures r.Str? ==> r.s == value
    ensures r.Num? <==> NumberValue(value).Some?
  {
    match NumberValue(value)
    case Some(n) => Num(n)
    case None =>
      var lower := LowerAscii(value);
      if lower == "true" then Bool(true)
      else if lower == "false" then Bool(false)
      else Str(value)
  }

  /** Text without white space at either end is left as it is by trimming. */
  lemma TrimUnspaced(s: string)
    requires s != [] && !IsJsSpace(s[0]) && !IsJsSpace(s[|s| - 1])
    ensures Trim(s) == s
  {
  }

  /** A decimal numeral, such as the text of `<Doc>12345</Doc>`, becomes the number it denotes. */
  lemma NativeTypeNumeral(s: string)
    requires s != [] && AllDigits(s)
    ensures NativeType(s) == Num(DigitsValue(s))
  {
    assert IsDigit(s[0]) && IsDigit(s[|s| - 1]);
    TrimUnspaced(s);
  }

  /** The rendering of a number converts back to that number. */
  lemma NativeTypeOfNumber(n: nat)
    ensures NativeType(NatToString(n)) == Num(n)
  {
    NativeTypeNumeral(NatToString(n));
    DigitsValueOfNatToString(n);
  }

  /** Blank text is the number 0, as `Number('')` is. */
  lemma NativeTypeBlank(s: string)
    requires forall i :: 0 <= i < |s| ==> IsJsSpace(s[i])
    ensures NativeType(s) == Num(0)
  {
  }

  /** Text with a character that is neither a digit nor white space is not a number. */
  lemma NotNumeral(s: string, i: nat)
    requires i < |s| && !IsDigit(s[i]) && !IsJsSpace(s[i])
    ensures NumberValue(s) == None
  {
    var a := TrimStart(s);
    var t := TrimEnd(a);
    var k := |s| - |a|;
    if i < k {
      TrimStartSkipsSpace(s, i);
    }
    assert a[i - k] == s[i];
    if i - k >= |t| {
      TrimEndSkipsSpace(a, i - k);
    }
    assert t[i - k] == s[i];
  }

  /** Trimming at the start removes white space only. */
  lemma {:induction false} TrimStartSkipsSpace(s: string, i: nat)
    requires i < |s| - |TrimStart(s)|
    ensures IsJsSpace(s[i])
  {
    if s != [] && IsJsSpace(s[0]) && i > 0 {
      TrimStartSkipsSpace(s[1..], i - 1);
    }
  }

  /** Trimming at the end removes white space only. */
  lemma {:induction false} TrimEndSkipsSpace(s: string, i: nat)
    requires |TrimEnd(s)| <= i < |s|
    ensures IsJsSpace(s[i])
  {
    if s != [] && IsJsSpace(s[|s| - 1]) && i < |s| - 1 {
      TrimEndSkipsSpace(s[..|s| - 1], i);
    }
  }

  /** "true" and "false" in any casing, such as `<Doc>TRUE</Doc>`, become booleans. */
  lemma NativeTypeBoolean(s: string)
    requires LowerAscii(s) == "true" || LowerAscii(s) == "false"
    ensures NativeType(s) == Bool(LowerAscii(s) == "true")
  {
    assert LowerChar(s[0]) == LowerAscii(s)[0];
    NotNumeral(s, 0);
  }

  /** Any other text, such as "Good read", is returned unchanged. */
  lemma NativeTypeText(s: string, i: nat)
    requires i < |s| && !IsDigit(s[i]) && !IsJsSpace(s[i])
    requires LowerAscii(s) != "true" && LowerAscii(s) != "false"
    ensures NativeType(s) == Str(s)
  {
    NotNumeral(s, i);
  }

  // ------------------------------------------------------------ the hoists

  /** `typeof v.length !== 'undefined'` and the length: arrays and strings have one. */
  function LengthOf(v: Node): (len: Option<nat>)
    ensures len.Some? <==> v.Arr? || v.Str?
  {
    match v
    case Arr(a) => Some(a.Length)
    case Str(s) => Some(|s|)
    case _ => None
  }

  /** The array held by the slot the callbacks write, if it holds one. */
  function LastArray(g: Container): set<array<Node>>
    reads g
  {
    var name := LastKeyName(g.keys);
    if name in g.slots && g.slots[name].Arr? then {g.slots[name].items} else {}
  }

  /**
   * The body of the text callback's `try` once the text is coerced: the last
   * slot of the grandparent takes `nativeValue`; when it holds an array or a
   * string, which have a `length`, only the final element is written, which
   * changes an array of at least one element and nothing else. When the slot
   * is missing, undefined or null, reading its `length` throws (`threw`) and
   * nothing has changed.
   */
  method HoistText(nativeValue: Node, grandParent: Container) returns (threw: bool)
    requires grandParent.Valid()
    modifies grandParent, LastArray(grandParent)
    ensures grandParent.Valid()
    ensures grandParent.keys == old(grandParent.keys)
    ensures var prior := old(grandParent.Get(LastKeyName(grandParent.keys)));
      threw <==> prior.Undefined? || prior.Null?
    ensures var name := LastKeyName(old(grandParent.keys));
      var prior := old(grandParent.Get(name));
      prior.Bool? || prior.Num? || prior.Obj? ==> grandParent.slots == old(grandParent.slots)[name := nativeValue]
    ensures var prior := old(grandParent.Get(LastKeyName(grandParent.keys)));
      !(prior.Bool? || prior.Num? || prior.Obj?) ==> grandParent.slots == old(grandParent.slots)
    ensures var prior := old(grandParent.Get(LastKeyName(grandParent.keys)));
      prior.Arr? ==>
        prior.items[..] == if prior.items.Length == 0 then old(prior.items[..])
                           else old(prior.items[..])[prior.items.Length - 1 := nativeValue]
  {
    var grandParentKeys := grandParent.keys;
    var lastKeyName := LastKeyName(grandParentKeys);
    var existingValue := grandParent.Get(lastKeyName);
    if existingValue.Undefined? || existingValue.Null? {
      return true;
    }
    var length := LengthOf(existingValue);
    if length.Some? {
      var arrIndex := length.value as int - 1;
      // Writing an index of a string has no effect, and an empty array gets a
      // property "-1", which is not one of its elements.
      if existingValue.Arr? && arrIndex >= 0 {
        existingValue.items[arrIndex] := nativeValue;
      }
    } else {
      grandParent.Set(lastKeyName, nativeValue);
    }
    threw := false;
  }

  /**
   * `removeJsonTextAttribute(value, parentElement)` with the grandparent given
   * directly: the last slot takes `NativeType(value)` as `HoistText` describes.
   * When reading the slot's `length` throws, the handler returns the raw text;
   * otherwise the callback returns nothing (`None`).
   */
  method RemoveJsonTextAttribute(value: string, grandParent: Container) returns (ret: Option<string>)
    requires grandParent.Valid()
    modifies grandParent, LastArray(grandParent)
    ensures grandParent.Valid()
    ensures grandParent.keys == old(grandParent.keys)
    ensures var prior := old(grandParent.Get(LastKeyName(grandParent.keys)));
      ret == (if prior.Undefined? || prior.Null? then Some(value) else None)
    ensures var name := LastKeyName(old(grandParent.keys));
      var prior := old(grandParent.Get(name));
      prior.Bool? || prior.Num? || prior.Obj? ==> grandParent.slots == old(grandParent.slots)[name := NativeType(value)]
    ensures var prior := old(grandParent.Get(LastKeyName(grandParent.keys)));
      !(prior.Bool? || prior.Num? || prior.Obj?) ==> grandParent.slots == old(grandParent.slots)
    ensures var prior := old(grandParent.Get(LastKeyName(grandParent.keys)));
      prior.Arr? ==>
        prior.items[..] == if prior.items.Length == 0 then old(prior.items[..])
                           else old(prior.items[..])[prior.items.Length - 1 := NativeType(value)]
  {
    var nativeValue := NativeType(value);
    var threw := HoistText(nativeValue, grandParent);
    ret := if threw then Some(value) else None;
  }

  /**
   * `removeJsonCdataAttribute(value, parentElement)` with the grandparent given
   * directly: the last slot, whatever it holds, takes the raw text. With no
   * key at all the write creates the property "undefined".
   */
  method RemoveJsonCdataAttribute(value: string, grandParent: Container)
    requires grandParent.Valid()
    modifies grandParent
    ensures grandParent.Valid()
    ensures grandParent.keys == if old(grandParent.keys) == [] then ["undefined"] else old(grandParent.keys)
    ensures grandParent.slots == old(grandParent.slots)[LastKeyName(old(grandParent.keys)) := Str(value)]
  {
    var grandParentKeys := grandParent.keys;
    var lastKeyName := LastKeyName(grandParentKeys);
    grandParent.Set(lastKeyName, Str(value));
  }

  // -------------------------------------------------------------- examples

  /** The text of `<Doc>test</Doc>` stays a string. */
  lemma TextExample()
    ensures NativeType("test") == Str("test")
  {
    NativeTypeText("test", 0);
  }

  /** The text of `<Doc>true</Doc>` becomes a boolean. */
  lemma BooleanExample()
    ensures NativeType("true") == Bool(true)
  {
    NativeTypeBoolean("true");
  }

  /** The text of `<Doc>12345</Doc>` becomes a number. */
  lemma NumberExample()
    ensures NativeType("12345") == Num(12345)
  {
    assert NatToString(12345) == "12345";
    NativeTypeOfNumber(12345);
  }

  /**
   * `<Doc><array>1</array><array>2</array><array>3</array></Doc>`: when the
   * third text arrives, the `array` slot of `Doc` holds the two coerced
   * numbers and the element just opened; the text replaces that element.
   */
  method ArrayExample() returns (items: seq<Node>, ret: Option<string>)
    ensures items == [Num(1), Num(2), Num(3)]
    ensures ret == None
  {
    var element := new Container();
    var siblings := new Node[] [Num(1), Num(2), Obj(element)];
    var doc := new Container();
    doc.Set("array", Arr(siblings));
    NativeTypeNumeral("3");
    ret := RemoveJsonTextAttribute("3", doc);
    items := siblings[..];
  }

  /**
   * `<Doc><book><![CDATA[9780062407801]]></book></Doc>`: the text replaces the
   * `book` element in `Doc` as a string, numeric as it looks.
   */
  method CdataExample() returns (book: Node)
    ensures book == Str("9780062407801")
  {
    var element := new Container();
    var doc := new Container();
    doc.Set("book", Obj(element));
    RemoveJsonCdataAttribute("9780062407801", doc);
    book := doc.Get("book");
  }
}
