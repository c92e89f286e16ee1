/** The project colour table and the lookup that turns a stored colour (a
    name or a hex code) into the styles a project card uses. */
module ColorMap {
  import opened Js
  import opened Wrappers

  datatype ColorStyle = ColorStyle(backgroundColor: string, borderColor: string, color: string,
                                   hex: string)

  const Blue := ColorStyle("#DBEAFE", "#60A5FA", "#1D4ED8", "#3B82F6")
  const Red := ColorStyle("#FECACA", "#F87171", "#DC2626", "#EF4444")
  const Yellow := ColorStyle("#FEF3C7", "#FBBF24", "#D97706", "#F59E0B")
  const Orange := ColorStyle("#FED7AA", "#FB923C", "#EA580C", "#F97316")
  const Purple := ColorStyle("#E9D5FF", "#C084FC", "#9333EA", "#A855F7")
  const Pink := ColorStyle("#FCE7F3", "#F472B6", "#DB2777", "#EC4899")
  const Cyan := ColorStyle("#CFFAFE", "#22D3EE", "#0891B2", "#06B6D4")
  const Green := ColorStyle("#D1FAE5", "#34D399", "#059669", "#10B981")

  /** The eight styles the table holds. */
  const Styles: set<ColorStyle> := {Blue, Red, Yellow, Orange, Purple, Pink, Cyan, Green}

  /** The table's entries in their declaration order (the order
      `Object.entries` visits them): each colour by name, then each by hex. */
  const Entries: seq<(string, ColorStyle)> := [
    ("blue", Blue), ("red", Red), ("yellow", Yellow), ("orange", Orange),
    ("purple", Purple), ("pink", Pink), ("cyan", Cyan), ("green", Green),
    ("#3B82F6", Blue), ("#EF4444", Red), ("#F59E0B", Yellow), ("#F97316", Orange),
    ("#A855F7", Purple), ("#EC4899", Pink), ("#06B6D4", Cyan), ("#10B981", Green)
  ]

  /** The table as the object it is: key to style. */
  const Table: map<string, ColorStyle> := map[
    "blue" := Blue, "red" := Red, "yellow" := Yellow, "orange" := Orange,
    "purple" := Purple, "pink" := Pink, "cyan" := Cyan, "green" := Green,
    "#3B82F6" := Blue, "#EF4444" := Red, "#F59E0B" := Yellow, "#F97316" := Orange,
    "#A855F7" := Purple, "#EC4899" := Pink, "#06B6D4" := Cyan, "#10B981" := Green
  ]

  /** The ordered entries and the object agree, no key appears twice, and
      every value is one of the eight styles. */
  lemma EntriesAreTable()
    ensures forall i :: 0 <= i < |Entries| ==> Entries[i].0 in Table && Table[Entries[i].0] == Entries[i].1
    ensures forall i, j :: 0 <= i < j < |Entries| ==> Entries[i].0 != Entries[j].0
    ensures forall i :: 0 <= i < |Entries| ==> Entries[i].1 in Styles
    ensures forall k :: k in Table ==> Table[k] in Styles
  {
  }

  /** The value-comparing loop: the first entry, in order, whose style's
      hex code, uppercased, is the given string. */
  function ScanByHex(entries: seq<(string, ColorStyle)>, upper: string): (r: Option<ColorStyle>)
    ensures r.Some? ==> exists i :: 0 <= i < |entries| && entries[i].1 == r.value
    ensures r.Some? ==> ToUpper(r.value.hex) == upper
    ensures r.None? ==> forall i :: 0 <= i < |entries| ==> ToUpper(entries[i].1.hex) != upper
    decreases |entries|
  {
    if entries == [] then None
    else if ToUpper(entries[0].1.hex) == upper then Some(entries[0].1)
    else
      var r := ScanByHex(entries[1..], upper);
      assert r.Some? ==> entries[1..][0] == entries[1];
      r
  }

  /** getColorMapping, for a colour that is a string or missing: a missing
      or empty colour is blue; a key of the table gives its entry; a string
      starting with '#' is tried uppercased as a key and then against every
      entry's hex code; anything else is blue. */
  function GetColorMapping(color: Option<string>): (r: ColorStyle)
    ensures r in Styles
    ensures color.None? || color.value == "" ==> r == Blue
    ensures color.Some? && color.value in Table ==> r == Table[color.value]
  {
    EntriesAreTable();
    if color.None? || color.value == "" then Blue
    else if color.value in Table then Table[color.value]
    else if StartsWith(color.value, "#") then
      var upperColor := ToUpper(color.value);
      if upperColor in Table then Table[upperColor]
      else match ScanByHex(Entries, upperColor)
        case Some(v) => v
        case None => Blue
    else Blue
  }

  /** A string without lower-case ASCII letters is its own upper case. */
  lemma UpperOfUpper(s: string)
    requires forall i :: 0 <= i < |s| ==> !('a' <= s[i] <= 'z')
    ensures ToUpper(s) == s
  {
  }

  /** Every style's hex code is written in upper case. */
  lemma HexCodesUpperCase()
    ensures forall v :: v in Styles ==> ToUpper(v.hex) == v.hex
  {
    UpperOfUpper(Blue.hex);
    UpperOfUpper(Red.hex);
    UpperOfUpper(Yellow.hex);
    UpperOfUpper(Orange.hex);
    UpperOfUpper(Purple.hex);
    UpperOfUpper(Pink.hex);
    UpperOfUpper(Cyan.hex);
    UpperOfUpper(Green.hex);
  }

  /** Every style's hex code is a key of the table naming that style. */
  lemma HexCodesAreKeys()
    ensures forall v :: v in Styles ==> v.hex in Table && Table[v.hex] == v
  {
  }

  /** Every style's hex code is upper case and is itself a key naming that
      style; so whatever the value scan could find, the uppercase lookup
      before it has already found. */
  lemma HexKeysNameTheirStyle()
    ensures forall v :: v in Styles ==> ToUpper(v.hex) == v.hex && v.hex in Table && Table[v.hex] == v
  {
    HexCodesUpperCase();
    HexCodesAreKeys();
  }

  /** The value scan never decides the result: for a string that is not a
      key of the table, it finds no entry. */
  lemma ScanFindsNothingNew(upper: string)
    requires upper !in Table
    ensures ScanByHex(Entries, upper) == None
  {
    HexKeysNameTheirStyle();
  }

  /** getColorMapping without its value scan: the exact key, else for a
      hex string its uppercased key, else blue. */
  function ReferenceMapping(color: Option<string>): ColorStyle
  {
    if color.Some? && color.value in Table then Table[color.value]
    else if color.Some? && StartsWith(color.value, "#") && ToUpper(color.value) in Table then
      Table[ToUpper(color.value)]
    else Blue
  }

  /** The lookup agrees with the reference on every input: hex codes match
      whatever the case of their letters, and an unknown colour is blue. */
  lemma MappingIsReference(color: Option<string>)
    ensures GetColorMapping(color) == ReferenceMapping(color)
  {
    if color.Some? && color.value != "" && color.value !in Table && StartsWith(color.value, "#") {
      var u := ToUpper(color.value);
      if u !in Table {
        ScanFindsNothingNew(u);
      }
    }
  }

  /** The keys starting with '#' are the styles' own hex codes. */
  lemma HashKeysAreHexCodes(key: string)
    requires key in Table && StartsWith(key, "#")
    ensures Table[key].hex == key
  {
    assert key[0] == '#';
  }

  /** Hex codes are matched case-insensitively: a code whose upper-case
      form is a key gives that key's entry. */
  lemma HexCaseInsensitive(code: string)
    requires StartsWith(code, "#") && ToUpper(code) in Table
    ensures GetColorMapping(Some(code)) == Table[ToUpper(code)]
  {
    MappingIsReference(Some(code));
    if code in Table {
      HashKeysAreHexCodes(code);
      EntriesAreTable();
      HexCodesUpperCase();
      assert Table[code] in Styles;
    }
  }
}
