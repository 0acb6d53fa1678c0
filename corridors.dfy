/** `CorridorNavigator`: corridor addresses of the form
    `DISTRICT_<n>.<chamber>.<node>` and the neighbour lookup in the corridor
    graph (a map from address text to the addresses reachable from it). */
module Corridors {
  import opened Options
  import opened Text
  import opened Numerals

  datatype Corridor = Corridor(district: int, chamber: string, node: string)

  /** What `parse_corridor` returns for text it cannot read. */
  const Unknown := Corridor(0, "UNKNOWN", "UNKNOWN")

  /** The three readings `parse_corridor` makes: the parts between dots, the
      second `_`-separated piece of the first part, and that piece as an
      integer. `None` stands for the `IndexError` or `ValueError` it catches. */
  function ReadCorridor(text: string): Option<Corridor> {
    var parts := Split(text, ".");
    if |parts| < 3 then None
    else
      var pieces := Split(parts[0], "_");
      if |pieces| < 2 then None
      else
        match ParseInteger(pieces[1], 10)
        case None => None
        case Some(district) => Some(Corridor(district, parts[1], parts[2]))
  }

  /** `CorridorNavigator.parse_corridor`. */
  function ParseCorridor(text: string): Corridor {
    ReadCorridor(text).GetOr(Unknown)
  }

  /** The graph key `get_neighbors` rebuilds from a parsed corridor. */
  function CorridorKey(c: Corridor): string {
    "DISTRICT_" + IntToDecimal(c.district) + "." + c.chamber + "." + c.node
  }

  /** A corridor whose chamber and node hold no dot and whose district is
      within the decimal conversion limit; exactly these are the corridors that
      some address text denotes. */
  predicate Addressable(c: Corridor) {
    '.' !in c.chamber && '.' !in c.node && WithinDigitLimit(c.district)
  }

  /** Parsing the key of an addressable corridor gives that corridor back. */
  lemma ParseKey(c: Corridor)
    requires Addressable(c)
    ensures ReadCorridor(CorridorKey(c)) == Some(c)
    ensures ParseCorridor(CorridorKey(c)) == c
  {
    var digits := IntToDecimal(c.district);
    var head := "DISTRICT_" + digits;
    KeyAsJoin(c);
    SplitJoin([head, c.chamber, c.node], '.');
    HeadAsJoin(digits);
    SplitJoin(["DISTRICT", digits], '_');
    ParseFormat(c.district);
  }

  /** The key is its three parts joined by dots. */
  lemma KeyAsJoin(c: Corridor)
    requires '.' !in c.chamber && '.' !in c.node
    ensures var head := "DISTRICT_" + IntToDecimal(c.district);
            '.' !in head &&
            CorridorKey(c) == Join([head, c.chamber, c.node], ".")
  {
    var digits := IntToDecimal(c.district);
    var head := "DISTRICT_" + digits;
    forall k | 0 <= k < |head| ensures head[k] != '.' {
      if k >= 9 { assert head[k] == digits[k - 9]; }
    }
    assert [head, c.chamber, c.node][1..] == [c.chamber, c.node];
    assert [c.chamber, c.node][1..] == [c.node];
    assert Join([c.chamber, c.node], ".") == c.chamber + "." + c.node;
  }

  /** The first part is `DISTRICT` and the district's digits joined by `_`. */
  lemma HeadAsJoin(digits: string)
    requires forall k :: 0 <= k < |digits| ==> digits[k] == '-' || IsDecimalDigit(digits[k])
    ensures '_' !in digits
    ensures "DISTRICT_" + digits == Join(["DISTRICT", digits], "_")
  {
  }

  /** Well-formed address text: `DISTRICT_`, the decimal form of an integer as
      Python writes it, then a dot-free chamber and node separated by dots. */
  ghost predicate WellFormed(text: string) {
    exists c: Corridor :: Addressable(c) && CorridorKey(c) == text
  }

  /** Well-formed text parses into its three parts, and the key that
      `get_neighbors` rebuilds from them is the text itself. */
  lemma ParseWellFormed(text: string)
    requires WellFormed(text)
    ensures ReadCorridor(text).Some?
    ensures CorridorKey(ParseCorridor(text)) == text
  {
    var c: Corridor :| Addressable(c) && CorridorKey(c) == text;
    ParseKey(c);
  }

  /** A corridor parsed from well-formed text rebuilds that text, so it has
      been parsed from no other well-formed text. */
  lemma AddressOfParse(c: Corridor)
    ensures forall text :: WellFormed(text) && ParseCorridor(text) == c ==> CorridorKey(c) == text
  {
    forall text | WellFormed(text) && ParseCorridor(text) == c
      ensures CorridorKey(c) == text
    {
      ParseWellFormed(text);
    }
  }

  /** `CorridorNavigator.get_neighbors`: for a corridor parsed from a
      well-formed address, the graph's entry for that very address text, or no
      neighbours when the graph has no such entry. */
  function GetNeighbors(graph: map<string, seq<string>>, c: Corridor): (r: seq<string>)
    ensures forall text :: WellFormed(text) && ParseCorridor(text) == c ==>
              r == (if text in graph then graph[text] else [])
  {
    AddressOfParse(c);
    if CorridorKey(c) in graph then graph[CorridorKey(c)] else []
  }

  /** The fallback cases: fewer than three dot-parts, no `_` in the first part,
      or a second `_`-piece that is not an integer; and no other text. */
  lemma FallbackCases(text: string)
    ensures var parts := Split(text, ".");
            ReadCorridor(text).None? <==>
              (|parts| < 3 ||
               !Contains(parts[0], "_") ||
               ParseInteger(Split(parts[0], "_")[1], 10).None?)
    ensures ReadCorridor(text).None? ==> ParseCorridor(text) == Unknown
  {
  }

  /** Every unreadable address is looked up under the key of the unknown
      corridor, `DISTRICT_0.UNKNOWN.UNKNOWN`. */
  lemma MalformedNeighbors(graph: map<string, seq<string>>, text: string)
    requires ReadCorridor(text).None?
    ensures CorridorKey(Unknown) == "DISTRICT_0.UNKNOWN.UNKNOWN"
    ensures GetNeighbors(graph, ParseCorridor(text)) ==
            (if CorridorKey(Unknown) in graph then graph[CorridorKey(Unknown)] else [])
  {
    UnknownAddress();
  }

  /** The fallback corridor is also what the well-formed address
      `DISTRICT_0.UNKNOWN.UNKNOWN` parses to, so unreadable text shares the
      neighbours of that node whenever the graph holds it. */
  lemma UnknownAddress()
    ensures CorridorKey(Unknown) == "DISTRICT_0.UNKNOWN.UNKNOWN"
    ensures WellFormed("DISTRICT_0.UNKNOWN.UNKNOWN")
    ensures ParseCorridor("DISTRICT_0.UNKNOWN.UNKNOWN") == Unknown
  {
    UnknownKey();
    var key := CorridorKey(Unknown);
    ParseKey(Unknown);
    assert Addressable(Unknown) && CorridorKey(Unknown) == key;
  }

  /** The key rebuilt from the fallback corridor. */
  lemma UnknownKey()
    ensures CorridorKey(Unknown) == "DISTRICT_0.UNKNOWN.UNKNOWN"
    ensures Addressable(Unknown)
  {
    assert NatToDecimal(0) == [DecimalChar(0)];
  }

  /** A well-formed parse keeps the chamber and node text verbatim. */
  lemma ParsedParts(text: string)
    requires ReadCorridor(text).Some?
    ensures var parts := Split(text, ".");
            |parts| >= 3 &&
            ParseCorridor(text).chamber == parts[1] &&
            ParseCorridor(text).node == parts[2] &&
            '.' !in parts[1] && '.' !in parts[2]
  {
    var parts := Split(text, ".");
    NoCharIn(parts[1], '.');
    NoCharIn(parts[2], '.');
  }

  /** A string without occurrences of `[c]` lacks the character `c`. */
  lemma NoCharIn(s: string, c: char)
    requires !Contains(s, [c])
    ensures c !in s
  {
    if c in s {
      var i :| 0 <= i < |s| && s[i] == c;
      assert s[i..i + 1] == [c];
      assert OccursAt(s, [c], i);
    }
  }
}
