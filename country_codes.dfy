/** Resolution of a free-text country name, or of a code the customer already
    typed, to an ISO 3166-1 alpha-2 country code. */
module CountryCodes {
  import opened Wrappers
  import opened Text

  const DefaultCountryCode: string := "US"

  /** Lower-case country names the resolver knows, with their codes. */
  const CountryCodeMap: map<string, string> := map[
    "sweden" := "SE", "united states" := "US", "united kingdom" := "GB",
    "norway" := "NO", "denmark" := "DK", "finland" := "FI", "germany" := "DE",
    "france" := "FR", "spain" := "ES", "italy" := "IT", "netherlands" := "NL",
    "canada" := "CA", "australia" := "AU", "japan" := "JP", "singapore" := "SG"
  ]

  /** Two capital letters: the shape of every code the resolver returns. */
  predicate IsAlpha2Code(s: string) {
    |s| == 2 && IsUpperLetter(s[0]) && IsUpperLetter(s[1])
  }

  lemma TableHoldsCodes()
    ensures forall name | name in CountryCodeMap :: IsAlpha2Code(CountryCodeMap[name])
  {
  }

  /** The table's names are longer than a code and already lower-case. */
  lemma TableNamesAreLowerCase(name: string)
    requires name in CountryCodeMap
    ensures |name| > 2 && Lower(name) == name
  {
    assert forall i :: 0 <= i < |name| ==> !IsUpperLetter(name[i]);
  }

  /** An absent or empty name gives the default; a two-letter alphabetic input is
      taken to be a code already and is upper-cased; anything else is looked up,
      case-insensitively, in the table, with the default on a miss. */
  function GetCountryCode(countryName: Option<string>): (r: string)
    ensures IsAlpha2Code(r)
    ensures countryName == None || countryName == Some("") ==> r == DefaultCountryCode
    ensures countryName.Some? && |countryName.value| == 2 && IsAlpha(countryName.value)
      ==> r == Upper(countryName.value)
    ensures countryName.Some? && (|countryName.value| != 2 || !IsAlpha(countryName.value))
      ==> r == (if Lower(countryName.value) in CountryCodeMap
                then CountryCodeMap[Lower(countryName.value)] else DefaultCountryCode)
  {
    match countryName
    case None => DefaultCountryCode
    case Some(name) =>
      if name == "" then DefaultCountryCode
      else if |name| == 2 && IsAlpha(name) then Upper(name)
      else
        TableHoldsCodes();
        var key := Lower(name);
        if key in CountryCodeMap then CountryCodeMap[key] else DefaultCountryCode
  }

  /** The resolver ignores the case the name was written in. */
  lemma {:induction false} GetCountryCodeIgnoresCase(name: string)
    ensures GetCountryCode(Some(Upper(name))) == GetCountryCode(Some(name))
    ensures GetCountryCode(Some(Lower(name))) == GetCountryCode(Some(name))
  {
    LowerOfUpper(name);
    LowerIdempotent(name);
    UpperOfLower(name);
    UpperIdempotent(name);
    assert IsAlpha(Upper(name)) <==> IsAlpha(name) by {
      forall i | 0 <= i < |name| ensures IsLetter(Upper(name)[i]) <==> IsLetter(name[i]) {
        assert Upper(name)[i] == UpperChar(name[i]);
      }
    }
    assert IsAlpha(Lower(name)) <==> IsAlpha(name) by {
      forall i | 0 <= i < |name| ensures IsLetter(Lower(name)[i]) <==> IsLetter(name[i]) {
        assert Lower(name)[i] == LowerChar(name[i]);
      }
    }
  }

  /** Every name of the table, written in any case, resolves to its table entry. */
  lemma {:induction false} TableNamesResolve(name: string)
    requires name in CountryCodeMap
    ensures GetCountryCode(Some(name)) == CountryCodeMap[name]
    ensures GetCountryCode(Some(Upper(name))) == CountryCodeMap[name]
  {
    TableNamesAreLowerCase(name);
    GetCountryCodeIgnoresCase(name);
  }

  /** The resolver's examples: table names in either case, a code, nothing, an unknown name. */
  lemma GetCountryCodeExamples()
    ensures GetCountryCode(Some("Sweden")) == "SE"
    ensures GetCountryCode(Some("sweden")) == "SE"
    ensures GetCountryCode(Some("xx")) == "XX"
    ensures GetCountryCode(None) == "US"
    ensures GetCountryCode(Some("Atlantis")) == "US"
  {
    assert Lower("Sweden") == "sweden";
    TableNamesResolve("sweden");
    assert Upper("xx") == "XX";
    assert Lower("Atlantis") == "atlantis";
  }
}
