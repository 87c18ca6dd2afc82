/** Extracting the caller's key on the authentication path and on the interception path. */
module Extract {
  import opened Base
  import opened Text
  import opened Host

  const BEARER := "authorization_bearer"
  const X_API_KEY := "x_api_key"
  const X_GOOG_API_KEY := "x_goog_api_key"
  const QUERY_KEY := "query_key"
  const QUERY_AUTH_TOKEN := "query_auth_token"

  datatype Extracted = Extracted(key: string, source: string)

  /** The token of a two-word "Bearer <token>" header. */
  function Bearer(value: string): string {
    var parts := Fields(Trim(value));
    if Trim(value) != "" && |parts| == 2 && EqualFold(parts[0], "Bearer") then Trim(parts[1]) else ""
  }

  function Canonical(source: string): string { Lower(Trim(source)) }

  /** The key one source yields, or "" if it has none; unknown sources have none. */
  function KeyFrom(headers: Headers, query: map<string, string>, source: string): string {
    if source == BEARER then Bearer(Get(headers, "Authorization"))
    else if source == X_API_KEY then Trim(Get(headers, "X-Api-Key"))
    else if source == X_GOOG_API_KEY then Trim(Get(headers, "X-Goog-Api-Key"))
    else if source == QUERY_KEY then Trim(Get(query, "key"))
    else if source == QUERY_AUTH_TOKEN then Trim(Get(query, "auth_token"))
    else ""
  }

  function FirstKey(headers: Headers, query: map<string, string>, sources: seq<string>): Option<Extracted> {
    if sources == [] then None
    else
      var source := Canonical(sources[0]);
      var key := KeyFrom(headers, query, source);
      if key != "" then Some(Extracted(key, source)) else FirstKey(headers, query, sources[1..])
  }

  /** ExtractAPIKey: the first configured source with a key; all five sources if none is configured. */
  function ExtractAPIKey(headers: Headers, query: map<string, string>, sources: seq<string>): Option<Extracted> {
    FirstKey(headers, query,
             if sources == [] then [BEARER, X_API_KEY, X_GOOG_API_KEY, QUERY_KEY, QUERY_AUTH_TOKEN] else sources)
  }

  predicate QuerySource(source: string) { Canonical(source) == QUERY_KEY || Canonical(source) == QUERY_AUTH_TOKEN }

  // ----- Configuration -----

  const DEFAULT_SOURCES := [BEARER, X_API_KEY, X_GOOG_API_KEY]

  /** The part of Validate about sources: query sources are refused. */
  function ValidateSources(sources: seq<string>): Result<seq<string>> {
    if exists i :: 0 <= i < |sources| && QuerySource(sources[i]) then Err("unsupported query source") else Ok(sources)
  }

  /** The part of Load about sources: the default fills an empty list before validation. */
  function LoadSources(configured: seq<string>): Result<seq<string>> {
    ValidateSources(if configured == [] then DEFAULT_SOURCES else configured)
  }

  // ----- Agreement -----

  lemma {:induction false} HeaderSourcesIgnoreQuery(headers: Headers, query: map<string, string>, sources: seq<string>)
    requires forall i :: 0 <= i < |sources| ==> !QuerySource(sources[i])
    ensures FirstKey(headers, query, sources) == FirstKey(headers, map[], sources)
  {
    hide Bearer, Trim, Lower, Canonical;
    if sources != [] {
      assert !QuerySource(sources[0]);
      assert forall i :: 0 <= i < |sources[1..]| ==> sources[1..][i] == sources[i + 1];
      HeaderSourcesIgnoreQuery(headers, query, sources[1..]);
    }
  }

  /** A request on which a list with a query source tells the two paths apart: no key headers, and
      both query parameters set. */
  lemma {:induction false} QuerySourceDisagrees(sources: seq<string>, i: nat)
    requires i < |sources| && QuerySource(sources[i])
    ensures var query := map["key" := "k", "auth_token" := "k"];
            FirstKey(map[], query, sources).Some? && FirstKey(map[], map[], sources).None?
    decreases |sources|
  {
    hide Canonical;
    EmptyHasNoKey(Canonical(sources[0]));
    NoKeyWithoutValues(sources);
    var query := map["key" := "k", "auth_token" := "k"];
    assert Trim("k") == "k" by { assert TrimLeft("k") == "k"; assert TrimRight("k") == "k"; }
    if i > 0 && KeyFrom(map[], query, Canonical(sources[0])) == "" {
      QuerySourceDisagrees(sources[1..], i - 1);
    }
  }

  lemma {:induction false} EmptyHasNoKey(source: string)
    ensures KeyFrom(map[], map[], source) == ""
  {
    assert Trim("") == "";
  }

  lemma {:induction false} NoKeyWithoutValues(sources: seq<string>)
    ensures FirstKey(map[], map[], sources).None?
  {
    hide KeyFrom, Canonical;
    if sources != [] {
      EmptyHasNoKey(Canonical(sources[0]));
      NoKeyWithoutValues(sources[1..]);
    }
  }

  ghost predicate PathsAgree(sources: seq<string>) {
    forall headers: Headers, query: map<string, string> ::
      ExtractAPIKey(headers, query, sources) == ExtractAPIKey(headers, map[], sources)
  }

  /** A non-empty source list gives the same key and source with and without the query, for all
      requests, exactly when it has no query source. */
  lemma {:induction false} AgreementIffHeaderSources(sources: seq<string>)
    requires sources != []
    ensures PathsAgree(sources) <==> forall i :: 0 <= i < |sources| ==> !QuerySource(sources[i])
  {
    hide FirstKey, QuerySource;
    if i :| 0 <= i < |sources| && QuerySource(sources[i]) {
      QuerySourceDisagrees(sources, i);
      var query := map["key" := "k", "auth_token" := "k"];
      assert ExtractAPIKey(map[], query, sources) != ExtractAPIKey(map[], map[], sources);
    } else {
      forall headers: Headers, query: map<string, string> { HeaderSourcesIgnoreQuery(headers, query, sources); }
    }
  }

  /** For every accepted configuration intercepted usage is charged to the key that authenticated; the
      configurations refused are exactly those for which it could differ. */
  lemma {:induction false} LoadedSourcesAgree(configured: seq<string>)
    ensures match LoadSources(configured)
            case Ok(sources) => sources != [] && PathsAgree(sources)
            case Err(_) => configured != [] && !PathsAgree(configured)
  {
    hide PathsAgree, QuerySource;
    if configured == [] {
      DefaultsAreHeaders();
      AgreementIffHeaderSources(DEFAULT_SOURCES);
    } else {
      AgreementIffHeaderSources(configured);
    }
  }

  lemma {:induction false} DefaultsAreHeaders()
    ensures forall i :: 0 <= i < |DEFAULT_SOURCES| ==> !QuerySource(DEFAULT_SOURCES[i])
  {
    hide QuerySource;
    NotQuery(BEARER, 'a');
    NotQuery(X_API_KEY, 'x');
    NotQuery(X_GOOG_API_KEY, 'x');
  }

  /** A source without white space at its ends keeps its first character in canonical form. */
  lemma {:induction false} NotQuery(source: string, first: char)
    requires |source| > 0 && source[0] == first && LowerChar(first) != 'q'
    requires !IsSpace(source[0]) && !IsSpace(source[|source| - 1])
    ensures !QuerySource(source)
  {
    assert TrimLeft(source) == source;
    assert TrimRight(source) == source;
    assert Canonical(source)[0] == LowerChar(first);
  }

  // ----- Where each source looks -----

  /** The places a request may carry a key in. */
  datatype Place = Authorization | XApiKey | XGoogApiKey | QueryKey | QueryAuthToken

  function HeadersWith(place: Place, key: string): Headers {
    match place
    case Authorization => map["Authorization" := "Bearer " + key]
    case XApiKey => map["X-Api-Key" := key]
    case XGoogApiKey => map["X-Goog-Api-Key" := key]
    case _ => map[]
  }

  function QueryWith(place: Place, key: string): map<string, string> {
    match place
    case QueryKey => map["key" := key]
    case QueryAuthToken => map["auth_token" := key]
    case _ => map[]
  }

  function SourceOf(place: Place): string {
    match place
    case Authorization => "authorization_bearer"
    case XApiKey => "x_api_key"
    case XGoogApiKey => "x_goog_api_key"
    case QueryKey => "query_key"
    case QueryAuthToken => "query_auth_token"
  }

  predicate Word(s: string) { s != "" && forall i :: 0 <= i < |s| ==> !IsSpace(s[i]) }

  lemma {:induction false} WordFields(word: string, w: string, rest: string)
    requires Word(w)
    ensures FieldsFrom(w + rest, word) == FieldsFrom(rest, word + w)
    decreases |w|
  {
    assert (w + rest)[1..] == w[1..] + rest;
    if |w| == 1 {
      assert w[1..] + rest == rest && word + [w[0]] == word + w;
    } else {
      WordFields(word + [w[0]], w[1..], rest);
      assert word + [w[0]] + w[1..] == word + w;
    }
  }

  lemma {:induction false} LastWord(w: string)
    requires Word(w)
    ensures Fields(w) == [w] && Trim(w) == w
  {
    WordFields("", w, "");
    assert w + "" == w && "" + w == w;
    TrimKeeps(w);
  }

  lemma {:induction false} NextWord(w: string, rest: string)
    requires Word(w)
    ensures Fields(w + [' '] + rest) == [w] + Fields(rest)
  {
    WordFields("", w, [' '] + rest);
    assert w + [' '] + rest == w + ([' '] + rest) && "" + w == w;
    assert ([' '] + rest)[1..] == rest;
  }

  /** An Authorization header yields the second of exactly two words, if the first is Bearer in any case. */
  lemma {:induction false} BearerTakesTwoWords(scheme: string, token: string, more: string)
    requires Word(scheme) && Word(token) && Word(more)
    ensures Bearer(scheme + [' '] + token) == if EqualFold(scheme, "Bearer") then token else ""
    ensures Bearer(scheme) == "" && Bearer(scheme + [' '] + token + [' '] + more) == ""
  {
    hide Trim, Fields, EqualFold, IsSpace;
    LastWord(scheme);
    LastWord(token);
    LastWord(more);
    NextWord(scheme, token);
    NextWord(scheme, token + [' '] + more);
    NextWord(token, more);
    var two := scheme + [' '] + token;
    TrimKeeps(two);
    assert two + [' '] + more == scheme + [' '] + (token + [' '] + more);
    TrimKeeps(two + [' '] + more);
  }

  lemma {:induction false} EmptyTexts(token: string)
    requires Word(token)
    ensures Trim("") == "" && Bearer("") == "" && Trim(token) == token && Bearer("Bearer " + token) == token
  {
    hide Trim;
    LastWord(token);
    BearerTakesTwoWords("Bearer", token, token);
    assert "Bearer" + [' '] + token == "Bearer " + token;
    assert Trim("") == "" by { NothingToTrim(); }
  }

  lemma {:induction false} NothingToTrim()
    ensures Trim("") == ""
  {
  }

  lemma {:induction false} KeyAtPlace(place: Place, other: Place, key: string)
    requires Word(key)
    ensures KeyFrom(HeadersWith(place, key), QueryWith(place, key), SourceOf(other)) ==
              if place == other then key else ""
  {
    hide Trim, Bearer;
    EmptyTexts(key);
    EmptyTexts(key);
  }

  lemma {:induction false} NamesAreCanonical(place: Place)
    ensures Canonical(SourceOf(place)) == SourceOf(place)
  {
    hide Trim, Lower;
    var s := SourceOf(place);
    assert forall i :: 0 <= i < |s| ==> s[i] == '_' || 'a' <= s[i] <= 'z';
    PlainIsCanonical(s);
  }

  lemma {:induction false} PlainIsCanonical(s: string)
    requires s != "" && forall i :: 0 <= i < |s| ==> s[i] == '_' || 'a' <= s[i] <= 'z'
    ensures Canonical(s) == s
  {
    hide Trim, Lower;
    TrimKeeps(s);
    assert Lower(s) == s;
  }

  /** Each source finds a key in its own place and in no other. */
  lemma {:induction false} SourcesKnowTheirPlaces(place: Place, other: Place, key: string)
    requires Word(key)
    ensures ExtractAPIKey(HeadersWith(place, key), QueryWith(place, key), [SourceOf(other)]) ==
              if place == other then Some(Extracted(key, SourceOf(place))) else None
  {
    hide KeyFrom, Canonical, HeadersWith, QueryWith, SourceOf, IsSpace;
    KeyAtPlace(place, other, key);
    NamesAreCanonical(other);
    var sources := [SourceOf(other)];
    assert sources[1..] == [];
    assert FirstKey(HeadersWith(place, key), QueryWith(place, key), sources[1..]).None?;
  }

  /** The first configured source that finds a key decides. */
  lemma {:induction false} EarliestSourceDecides(
    headers: Headers, query: map<string, string>, sources: seq<string>, i: nat)
    requires i < |sources| && FirstKey(headers, query, [sources[i]]).Some?
    requires forall k :: 0 <= k < i ==> FirstKey(headers, query, [sources[k]]).None?
    ensures ExtractAPIKey(headers, query, sources) == ExtractAPIKey(headers, query, [sources[i]])
    decreases i
  {
    hide KeyFrom, Canonical;
    assert [sources[i]][1..] == [];
    if i > 0 {
      assert FirstKey(headers, query, [sources[0]]).None? && [sources[0]][1..] == [];
      assert forall k :: 0 <= k < |sources[1..]| ==> sources[1..][k] == sources[k + 1];
      EarliestSourceDecides(headers, query, sources[1..], i - 1);
    }
  }

  /** Without configured sources all five are tried, headers first. */
  lemma {:induction false} AllSourcesInOrder(headers: Headers, query: map<string, string>)
    ensures ExtractAPIKey(headers, query, []) ==
            ExtractAPIKey(headers, query,
                          [SourceOf(Authorization), SourceOf(XApiKey), SourceOf(XGoogApiKey), SourceOf(QueryKey),
                           SourceOf(QueryAuthToken)])
  {
    hide FirstKey;
  }

  lemma {:induction false} PaddedTrim(key: string, before: char, behind: char)
    requires Word(key) && IsSpace(before) && IsSpace(behind)
    ensures Trim([before] + key + [behind]) == key
  {
    hide Trim, IsSpace;
    LastWord(key);
    TrimIgnoresEnds(key, before);
    TrimIgnoresEnds([before] + key, behind);
  }

  /** White space around a carried key is not a part of it, and a blank value carries none. */
  lemma {:induction false} CarriedKeyIsTrimmed(place: Place, key: string, before: char, behind: char)
    requires Word(key) && IsSpace(before) && IsSpace(behind) && !place.Authorization?
    ensures var padded := [before] + key + [behind];
            ExtractAPIKey(HeadersWith(place, padded), QueryWith(place, padded), [SourceOf(place)]) ==
              Some(Extracted(key, SourceOf(place)))
    ensures ExtractAPIKey(HeadersWith(place, [before]), QueryWith(place, [before]), [SourceOf(place)]).None?
  {
    hide Trim, Canonical, IsSpace, Bearer;
    PaddedTrim(key, before, behind);
    NamesAreCanonical(place);
    assert Trim([before]) == "" by { SpaceIsBlank(before); }
    var sources, blank := [SourceOf(place)], [before];
    assert sources[1..] == [];
    assert FirstKey(HeadersWith(place, blank), QueryWith(place, blank), sources[1..]).None?;
    assert KeyFrom(HeadersWith(place, blank), QueryWith(place, blank), SourceOf(place)) == "";
  }

  lemma {:induction false} SpaceIsBlank(space: char)
    requires IsSpace(space)
    ensures Trim([space]) == ""
  {
    hide Trim, IsSpace;
    TrimIgnoresEnds("", space);
    assert [space] + "" == [space];
    NothingToTrim();
  }

  /** A source may be configured with white space around it and in upper case. */
  lemma {:induction false} SourceNamesAreLenient(place: Place, before: char, behind: char)
    requires IsSpace(before) && IsSpace(behind)
    ensures Canonical([before] + SourceOf(place) + [behind]) == SourceOf(place)
    ensures Canonical("X_API_KEY") == SourceOf(XApiKey)
  {
    hide Trim, Lower, IsSpace, SourceOf;
    var s := SourceOf(place);
    NamesAreCanonical(place);
    TrimIgnoresEnds(s, before);
    TrimIgnoresEnds([before] + s, behind);
    UpperCaseName();
  }

  lemma {:induction false} UpperCaseName()
    ensures Canonical("X_API_KEY") == SourceOf(XApiKey)
  {
    TrimKeeps("X_API_KEY");
    assert Lower("X_API_KEY") == "x_api_key";
  }
}
