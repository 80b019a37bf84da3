/** Where the two pipelines part ways. api/main.py anchors the profile match
    to the whole URL path, accepts whitespace around the page field's colon,
    keeps periods in a price, falls back to `name` and looks each name up
    once; main.py searches anywhere in the link, wants the tight field,
    drops periods, keeps only `market_hash_name`, looks up every occurrence
    and rounds. */
module Divergence {
  import opened Wrappers
  import opened Text
  import opened Decimal
  import opened Patterns
  import opened Upstream
  import SteamApi
  import SteamSite

  /** A path the anchored match accepts is found, with the same digits, by
      the unanchored search. */
  lemma AnchoredImpliesUnanchored(path: string)
    requires SteamApi.DirectProfileId(path).Some?
    ensures Search(ProfilesSegment, path) == SteamApi.DirectProfileId(path)
  {
    assert MatchAt(ProfilesSegment, path, 0) == SteamApi.DirectProfileId(path);
  }

  /** The converse fails: a profile path with a further segment is not a
      direct path, yet the search finds its id. */
  lemma UnanchoredAcceptsLongerPath()
    ensures SteamApi.DirectProfileId("/profiles/7/inventory") == None
    ensures Search(ProfilesSegment, "/profiles/7/inventory") == Some("7")
  {
    var path := "/profiles/7/inventory";
    assert LiteralAt(path, 0, ProfilesPrefix) by {
      assert path[..10] == ProfilesPrefix;
    }
    assert LiteralAt(path, 10, "7") by {
      assert path[10..11] == "7";
    }
    assert RunLength(path, 10, IsDigit) == 1 by {
      RunLengthExact(path, 10, "7", IsDigit);
    }
    assert MatchAt(ProfilesSegment, path, 0) == Some("7");
  }

  /** A tight `"steamid":"<digits>"` field is also a match of the spaced
      pattern, at the same index and with the same digits. */
  lemma TightFieldIsSpacedField(s: string, i: nat)
    requires i <= |s| && MatchAt(SteamIdFieldTight, s, i).Some?
    ensures FieldMatchAt(s, i) == MatchAt(SteamIdFieldTight, s, i)
  {
    var d := MatchAt(SteamIdFieldTight, s, i).value;
    assert LiteralAt(s, i, SteamIdKeyTight);
    assert s[i..i + 11] == SteamIdKeyTight;
    assert s[i..i + 9] == s[i..i + 11][..9];
    assert LiteralAt(s, i, SteamIdKey);
    assert CharAt(s, i + 9, ':') by { assert s[i + 9] == s[i..i + 11][9]; }
    assert CharAt(s, i + 10, '"') by { assert s[i + 10] == s[i..i + 11][10]; }
    assert LiteralAt(s, i + 9, "") && LiteralAt(s, i + 10, "");
    SteamIdFieldComplete(s, i, "", "", d);
  }

  /** So whenever main.py finds an id in a page, api/main.py finds one too. */
  lemma TightSearchImpliesSpacedSearch(s: string)
    requires Search(SteamIdFieldTight, s).Some?
    ensures Search(SteamIdField, s).Some?
  {
    var i :| 0 <= i <= |s| && MatchAt(SteamIdFieldTight, s, i).Some?;
    TightFieldIsSpacedField(s, i);
    assert MatchAt(SteamIdField, s, i).Some?;
  }

  /** The converse fails: a space after the colon is accepted only by the
      spaced pattern. */
  lemma SpacedFieldNotTight()
    ensures FieldMatchAt("\"steamid\": \"5\"", 0) == Some("5")
    ensures MatchAt(SteamIdFieldTight, "\"steamid\": \"5\"", 0) == None
  {
    var s := "\"steamid\": \"5\"";
    assert !LiteralAt(s, 0, SteamIdKeyTight) by {
      assert s[10] != SteamIdKeyTight[10];
    }
    assert LiteralAt(s, 0, SteamIdKey) by {
      assert s[..9] == SteamIdKey;
    }
    assert LiteralAt(s, 9, "") && LiteralAt(s, 10, " ") by {
      assert s[10..11] == " ";
    }
    assert LiteralAt(s, 12, "5") by {
      assert s[12..13] == "5";
    }
    SteamIdFieldComplete(s, 0, "", " ", "5");
  }

  /** The record name of api/main.py agrees with main.py's name wherever
      main.py emits one. */
  lemma NamesAgreeWhenPresent(assets: seq<Asset>, descs: seq<Description>, i: int)
    requires 0 <= i < |assets|
    requires SteamSite.AssetName(assets[i], SteamApi.DescIndex(descs)).Some?
    ensures SteamApi.InventoryItems(assets, descs)[i].name == SteamSite.AssetName(assets[i], SteamApi.DescIndex(descs))
  {
  }

  /** An asset whose description has no truthy `market_hash_name` but a
      truthy `name` is named by api/main.py and dropped by main.py. */
  lemma NameFallbackOnlyInApi(assets: seq<Asset>, descs: seq<Description>, i: int)
    requires 0 <= i < |assets|
    requires var index := SteamApi.DescIndex(descs); var key := SteamApi.AssetKey(assets[i]);
      key in index && !Truthy(index[key].marketHashName) && Truthy(index[key].name)
    ensures SteamApi.InventoryItems(assets, descs)[i].name.Some?
    ensures SteamSite.AssetName(assets[i], SteamApi.DescIndex(descs)).None?
  {
  }

  /** `n` copies of one item, each priced `v`: api/main.py looks the name up
      once, for its one distinct name, while main.py's loop requests every
      occurrence, completing after `n` requests and `n` sleeps; both sum
      one `v` per copy. */
  lemma CopiesLookedUpPerOccurrence(items: seq<SteamApi.NamedItem>, names: seq<string>, name: string,
                                     respond: nat -> string -> PriceAttempt, attempt: PriceAttempt, v: real)
    requires items != [] && |names| == |items| && name != []
    requires forall i :: 0 <= i < |items| ==> items[i].name == Some(name)
    requires v != 0.0 && SteamSite.RootItemPrice(attempt) == Ok(Some(v))
    requires forall j :: 0 <= j < |names| ==> names[j] == name && respond(j)(name) == attempt
    ensures SteamApi.UniqueNames(items) == {name}
    ensures SteamSite.PriceLoop(names, respond) == SteamSite.Completed(|names| as real * v, |names|)
  {
    SteamApi.UniqueNamesOfCopies(items, name);
    SteamSite.PriceLoopCopies(names, respond, name, attempt, v);
  }

  /** On a string of digits and periods, api/main.py's cleaning keeps every
      period and main.py's leaves none. */
  lemma CleaningOfPeriods(s: string)
    requires DecimalChars(s)
    ensures SteamApi.CleanPrice(s) == s
    ensures CountDots(SteamSite.CleanPriceRoot(s)) == 0
  {
    SteamApi.CleanPriceFixesClean(s);
    SteamSite.CleanPriceRootCounts(s);
    NoCommas(s);
  }

  lemma {:induction false} NoCommas(s: string)
    requires DecimalChars(s)
    ensures SteamSite.Commas(s) == 0
  {
    if s != [] {
      NoCommas(s[1..]);
    }
  }

  /** So a period decimal reads ten times larger in main.py. */
  lemma PeriodDecimalReadsDifferently()
    ensures SteamApi.ParsePriceToFloat(Some("1.5")) == Some(1.5)
    ensures SteamSite.PriceValue(Some("1.5")) == Some(15.0)
  {
    ApiKeepsPeriod();
    RootDropsPeriod();
  }

  /** In general: a price written with a decimal period and `k` decimals
      reads as written in api/main.py and `10^k` times larger in main.py. */
  lemma PeriodPriceScaled(n: nat, k: nat)
    ensures SteamApi.ParsePriceToFloat(Some(FormatFixed(n, k))) == Some(n as real / Pow10(k) as real)
    ensures SteamSite.PriceValue(Some(FormatFixed(n, k))) == Some(n as real)
  {
    SteamApi.ParsePriceOfFixed(n, k);
    SteamSite.PriceValueOfFixed(n, k);
  }

  /** A price written with a decimal comma reads the same in both. */
  lemma CommaPriceAgrees(n: nat, k: nat)
    ensures SteamApi.ParsePriceToFloat(Some(CommaFixed(n, k))) == Some(n as real / Pow10(k) as real)
    ensures SteamSite.PriceValue(Some(CommaFixed(n, k))) == Some(n as real / Pow10(k) as real)
  {
    SteamApi.ParsePriceOfCommaFixed(n, k);
    SteamSite.PriceValueOfCommaFixed(n, k);
  }

  lemma ApiKeepsPeriod()
    ensures SteamApi.ParsePriceToFloat(Some("1.5")) == Some(1.5)
  {
    var s := "1.5";
    assert SteamApi.CleanPrice(s) == s;
    ParseOnePointFive();
    assert SteamApi.ParsePriceToFloat(Some(s)) == ParseDecimal(SteamApi.CleanPrice(s)) by {
      assert Truthy(Some(s));
    }
  }

  lemma RootDropsPeriod()
    ensures SteamSite.PriceValue(Some("1.5")) == Some(15.0)
  {
    var s := "1.5";
    assert SteamSite.CleanPriceRoot(s) == NatToDecimal(15);
    ParseDecimalOfNat(15);
    assert SteamSite.PriceValue(Some(s)) == ParseDecimal(SteamSite.CleanPriceRoot(s)) by {
      assert Truthy(Some(s));
    }
  }

  lemma ParseOnePointFive()
    ensures ParseDecimal("1.5") == Some(1.5)
  {
    var s := "1.5";
    assert BeforeDot(s) == "1" && AfterDot(s) == "5";
    assert HasDigit(s) by { assert IsDigit(s[0]); }
    assert CountDots(s) == 1;
    assert DigitsValue("1") == 1 by { assert "1"[..0] == ""; }
    assert DigitsValue("5") == 5 by { assert "5"[..0] == ""; }
    assert Pow10(1) == 10;
  }

  /** main.py rounds its total to cents, ties to even; api/app.py does not
      round. */
  lemma RoundingTiesToEven()
    ensures SteamSite.Round2(0.125) == 0.12
    ensures SteamSite.Round2(0.135) == 0.14
    ensures SteamSite.Round2(1.004) == 1.0
  {
    assert (0.125 * 100.0).Floor == 12;
    assert (0.135 * 100.0).Floor == 13;
    assert (1.004 * 100.0).Floor == 100;
  }
}
