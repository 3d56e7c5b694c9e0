/** Group names read from a token claim, in the shapes that identity providers emit. */
module Groups {
  import opened Basics
  import opened Text

  datatype JsonItem = JsonString(text: string) | JsonOther

  /** A claim value; everything that is neither an array nor a string is `OtherClaim`. */
  datatype Claim = ArrayClaim(items: seq<JsonItem>) | StringClaim(text: string) | OtherClaim

  /** The JSON decoder restricted to arrays; `None` when the text is not a JSON array. */
  type JsonArrayDecoder = string -> Option<seq<JsonItem>>

  predicate GroupName(s: string) {
    s != "" && Trimmed(s)
  }

  /** Trimmed, with blank parts dropped. */
  function Keep(parts: seq<string>): (out: seq<string>)
    ensures forall k :: 0 <= k < |out| ==> GroupName(out[k])
  {
    if parts == [] then []
    else
      var t := TrimSpace(parts[|parts| - 1]);
      Keep(parts[..|parts| - 1]) + if t == "" then [] else [t]
  }

  function Strings(items: seq<JsonItem>): seq<string> {
    if items == [] then []
    else Strings(items[..|items| - 1]) + if items[|items| - 1].JsonString? then [items[|items| - 1].text] else []
  }

  predicate LooksLikeJsonArray(s: string) {
    |s| >= 2 && s[0] == '[' && s[|s| - 1] == ']'
  }

  function FromArray(items: seq<JsonItem>): seq<string> {
    Keep(Strings(items))
  }

  function FromCsv(s: string): seq<string> {
    Keep(Split(s, ','))
  }

  function FromBracketedCsv(s: string): seq<string> {
    if !LooksLikeJsonArray(s) then []
    else
      var inner := s[1..|s| - 1];
      if ',' !in inner then [] else FromCsv(inner)
  }

  function ParseString(raw: string, json: JsonArrayDecoder): (out: seq<string>)
    ensures forall k :: 0 <= k < |out| ==> GroupName(out[k])
  {
    var s := TrimSpace(raw);
    if s == "" then []
    else if LooksLikeJsonArray(s) then
      var arr := json(s);
      if arr.Some? then FromArray(arr.value) else FromBracketedCsv(s)
    else if ',' in s then FromCsv(s)
    else [s]
  }

  /** On any input, every group read is trimmed and not empty. */
  function ParseClaim(claim: Claim, json: JsonArrayDecoder): (out: seq<string>)
    ensures forall k :: 0 <= k < |out| ==> GroupName(out[k])
  {
    match claim
    case ArrayClaim(items) => FromArray(items)
    case StringClaim(text) => ParseString(text, json)
    case OtherClaim => []
  }

  // ----- the loops -----

  method GroupsFromArray(items: seq<JsonItem>) returns (out: seq<string>)
    ensures out == FromArray(items)
  {
    hide TrimSpace, GroupName;
    out := [];
    for n := 0 to |items|
      invariant out == FromArray(items[..n])
    {
      ArrayOneMore(items, n);
      if items[n].JsonOther? {
        continue;
      }
      var trimmed := TrimSpace(items[n].text);
      if trimmed == "" {
        continue;
      }
      out := out + [trimmed];
    }
    assert items[..|items|] == items;
  }

  lemma ArrayOneMore(items: seq<JsonItem>, n: nat)
    requires n < |items|
    ensures FromArray(items[..n + 1]) == FromArray(items[..n]) +
              if items[n].JsonString? && TrimSpace(items[n].text) != "" then [TrimSpace(items[n].text)] else []
  {
    hide TrimSpace, GroupName;
    assert items[..n + 1][..n] == items[..n];
    var before := Strings(items[..n]);
    if items[n].JsonString? {
      assert (before + [items[n].text])[..|before|] == before;
    } else {
      assert Strings(items[..n + 1]) == before;
    }
  }

  method GroupsFromCsv(s: string) returns (out: seq<string>)
    ensures out == FromCsv(s)
  {
    var parts := Split(s, ',');
    out := [];
    for n := 0 to |parts|
      invariant out == Keep(parts[..n])
    {
      assert parts[..n + 1][..n] == parts[..n];
      var trimmed := TrimSpace(parts[n]);
      if trimmed == "" {
        continue;
      }
      out := out + [trimmed];
    }
    assert parts[..|parts|] == parts;
  }

  /** Membership as the callback decides it: exact and case-sensitive. */
  method InGroup(groups: seq<string>, required: string) returns (matched: bool)
    ensures matched <==> required in groups
  {
    matched := false;
    for n := 0 to |groups|
      invariant matched <==> required in groups[..n]
    {
      if groups[n] == required {
        matched := true;
        assert required in groups[..n + 1];
        return;
      }
    }
  }

  // ----- the three shapes of one list -----

  function TrimAll(parts: seq<string>): seq<string> {
    seq(|parts|, k requires 0 <= k < |parts| => TrimSpace(parts[k]))
  }

  lemma {:induction false} KeepAll(parts: seq<string>)
    requires forall k :: 0 <= k < |parts| ==> !Blank(parts[k])
    ensures Keep(parts) == TrimAll(parts)
  {
    hide TrimSpace, GroupName, Blank;
    if parts != [] {
      var init, last := parts[..|parts| - 1], parts[|parts| - 1];
      KeepAll(init);
      assert !Blank(last);
      assert TrimAll(parts) == TrimAll(init) + [TrimSpace(last)];
    }
  }

  function AsItems(parts: seq<string>): seq<JsonItem> {
    seq(|parts|, k requires 0 <= k < |parts| => JsonString(parts[k]))
  }

  lemma {:induction false} StringsAsItems(parts: seq<string>)
    ensures Strings(AsItems(parts)) == parts
  {
    if parts != [] {
      StringsAsItems(parts[..|parts| - 1]);
      assert AsItems(parts)[..|parts| - 1] == AsItems(parts[..|parts| - 1]);
    }
  }

  /** Two or more comma-free names, padded at most towards each other. */
  predicate NameList(parts: seq<string>) {
    && |parts| >= 2
    && (forall k :: 0 <= k < |parts| ==> ',' !in parts[k] && !Blank(parts[k]))
    && !IsSpace(parts[0][0])
    && !IsSpace(parts[|parts| - 1][|parts[|parts| - 1]| - 1])
  }

  lemma JoinedIsTrimmed(parts: seq<string>)
    requires NameList(parts)
    ensures var s := Join(parts, ','); s != "" && Trimmed(s) && ',' in s && Split(s, ',') == parts
  {
    var s, last := Join(parts, ','), parts[|parts| - 1];
    JoinEnds(parts, ',');
    JoinContains(parts, ',');
    SplitJoin(parts, ',');
    assert s[0] == s[..|parts[0]|][0];
    assert s[|s| - 1] == s[|s| - |last|..][|last| - 1];
  }

  /**
   The array, the comma-joined string and the bracketed string that is not JSON all parse to the
   same list: the names, trimmed, in order.
   */
  lemma ThreeShapesAgree(parts: seq<string>, json: JsonArrayDecoder)
    requires NameList(parts)
    ensures ParseClaim(ArrayClaim(AsItems(parts)), json) == TrimAll(parts)
    ensures var s := Join(parts, ',');
            !LooksLikeJsonArray(s) ==> ParseClaim(StringClaim(s), json) == TrimAll(parts)
    ensures var b := "[" + Join(parts, ',') + "]";
            json(b).None? ==> ParseClaim(StringClaim(b), json) == TrimAll(parts)
  {
    hide TrimSpace, Split, Join;
    KeepAll(parts);
    StringsAsItems(parts);
    JoinedIsTrimmed(parts);
    var s := Join(parts, ',');
    var b := "[" + s + "]";
    assert TrimSpace(s) == s;
    assert Trimmed(b) && TrimSpace(b) == b && b[1..|b| - 1] == s;
  }

  /** A JSON array inside a string is the array, a single name is itself, and blank or foreign claims are no group. */
  lemma OtherShapes(a: string, core: string, b: string, json: JsonArrayDecoder)
    requires Blank(a) && Blank(b) && GroupName(core)
    ensures var whole := StringClaim(a + core + b);
            && (core[0] == '[' && core[|core| - 1] == ']' && |core| >= 2 && json(core).Some? ==>
                  ParseClaim(whole, json) == ParseClaim(ArrayClaim(json(core).value), json))
            && (core[0] != '[' && ',' !in core ==> ParseClaim(whole, json) == [core])
            && (core[0] == '[' && core[|core| - 1] == ']' && |core| >= 2 && json(core).None? && ',' !in core ==>
                  ParseClaim(whole, json) == [])
    ensures ParseClaim(StringClaim(a), json) == [] && ParseClaim(OtherClaim, json) == []
  {
    hide FromArray, FromCsv, TrimSpace;
    TrimSpaceCore(a, core, b);
  }

  /** Of an array only the strings count. */
  lemma {:induction false} ForeignItemsIgnored(items: seq<JsonItem>, json: JsonArrayDecoder)
    ensures ParseClaim(ArrayClaim(items + [JsonOther]), json) == ParseClaim(ArrayClaim(items), json)
  {
    hide Keep;
    assert (items + [JsonOther])[..|items|] == items;
    assert Strings(items) + [] == Strings(items);
  }
}
