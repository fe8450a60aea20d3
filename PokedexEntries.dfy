/**
 * The list entries of the home screen, how one is derived from a `{ name, url }` summary of
 * the list response, and the predicate a search query filters them with.
 */
module PokedexEntries {
  import opened Int32
  import opened Text
  import opened Responses

  /** One row entry: display name, sprite URL and Pokédex number. */
  datatype PokedexList = PokedexList(name: string, imgUrl: string, number: int)

  const SPRITE_PREFIX: string := "https://raw.githubusercontent.com/PokeAPI/sprites/master/sprites/pokemon/"
  const SPRITE_SUFFIX: string := ".png"

  predicate EndsWithSlash(url: string) {
    |url| > 0 && url[|url| - 1] == '/'
  }

  /** How much of the URL is searched for the number: all of it, less one trailing "/". */
  function NumberEnd(url: string): (b: nat)
    ensures b <= |url|
  {
    if EndsWithSlash(url) then |url| - 1 else |url|
  }

  /**
   * The number string of a resource URL: the longest run of digits that ends the URL once one
   * trailing "/" is dropped.
   */
  function NumberString(url: string): (r: string)
    ensures |r| <= NumberEnd(url)
    ensures r == url[NumberEnd(url) - |r|..NumberEnd(url)]
    ensures AllDigits(r)
    ensures |r| < NumberEnd(url) ==> !IsDigit(url[NumberEnd(url) - |r| - 1])
  {
    if EndsWithSlash(url) then TakeLastDigits(url[..|url| - 1]) else TakeLastDigits(url)
  }

  /** "…/<digits>/" and "…/<digits>" both give the digits, whatever comes before them. */
  lemma NumberOfResourceUrl(prefix: string, digits: string)
    requires |prefix| > 0 && !IsDigit(prefix[|prefix| - 1])
    requires |digits| > 0 && AllDigits(digits)
    ensures NumberString(prefix + digits + "/") == digits
    ensures NumberString(prefix + digits) == digits
  {
    TakeLastDigitsAfterNonDigit(prefix, digits);
    var u := prefix + digits + "/";
    assert u[..|u| - 1] == prefix + digits;
  }

  lemma {:induction false} TakeLastDigitsAfterNonDigit(prefix: string, digits: string)
    requires |prefix| > 0 && !IsDigit(prefix[|prefix| - 1]) && AllDigits(digits)
    ensures TakeLastDigits(prefix + digits) == digits
  {
    var s := prefix + digits;
    if |digits| == 0 {
      assert s == prefix;
    } else {
      var init := digits[..|digits| - 1];
      assert s[..|s| - 1] == prefix + init;
      TakeLastDigitsAfterNonDigit(prefix, init);
      assert init + [digits[|digits| - 1]] == digits;
    }
  }

  lemma UrlExamples()
    ensures NumberString("https://pokeapi.co/api/v2/pokemon/25/") == "25"
    ensures NumberString("https://pokeapi.co/api/v2/pokemon/25") == "25"
  {
    NumberOfResourceUrl("https://pokeapi.co/api/v2/pokemon/", "25");
    assert "https://pokeapi.co/api/v2/pokemon/" + "25" + "/" == "https://pokeapi.co/api/v2/pokemon/25/";
    assert "https://pokeapi.co/api/v2/pokemon/" + "25" == "https://pokeapi.co/api/v2/pokemon/25";
  }

  /** The summary's number string can be read by `toInt` (otherwise the load throws). */
  predicate HasNumber(r: Result) {
    ToIntSucceeds(NumberString(r.url))
  }

  /** The sprite URL template with the number string put in. */
  function ImgUrl(number: string): (u: string) {
    SPRITE_PREFIX + number + SPRITE_SUFFIX
  }

  /** The number string a sprite URL was built from. */
  function SpriteNumber(imgUrl: string): (number: string)
    requires |imgUrl| >= |SPRITE_PREFIX| + |SPRITE_SUFFIX|
  {
    imgUrl[|SPRITE_PREFIX|..|imgUrl| - |SPRITE_SUFFIX|]
  }

  lemma SpriteNumberOfImgUrl(number: string)
    ensures |ImgUrl(number)| == |SPRITE_PREFIX| + |number| + |SPRITE_SUFFIX|
    ensures SpriteNumber(ImgUrl(number)) == number
  {
    var u := ImgUrl(number);
    assert u[|SPRITE_PREFIX|..|u| - |SPRITE_SUFFIX|] == number;
  }

  /**
   * `replaceFirstChar { if (it.isLowerCase()) it.titlecase() else it.toString() }`: the name
   * with its first character upper-cased when it is lower-case and nothing else changed.
   */
  function TitleCaseFirst(name: string): (r: string)
    ensures |r| == |name|
    ensures forall i :: 1 <= i < |r| ==> r[i] == name[i]
    ensures |r| > 0 && IsLowerCase(name[0]) ==> r[0] == UpperCase(name[0]) && r[0] != name[0]
    ensures |r| > 0 && !IsLowerCase(name[0]) ==> r[0] == name[0]
    ensures |r| > 0 ==> !IsLowerCase(r[0])
  {
    if |name| == 0 then name else [UpperCase(name[0])] + name[1..]
  }

  /** A search cannot tell a title-cased name from the name the server sent. */
  lemma TitleCaseInvisibleToSearch(name: string, q: string)
    ensures ContainsIgnoreCase(TitleCaseFirst(name), q) == ContainsIgnoreCase(name, q)
  {
    var t := TitleCaseFirst(name);
    assert forall i :: 0 <= i < |t| ==> SameIgnoringCase(t[i], name[i]);
    IndexOfIgnoresCaseOfText(t, name, q, 0);
  }

  /**
   * The entry `loadPokemonPaginated` builds from one summary: the name title-cased, a sprite URL
   * made of the fixed prefix and suffix around the URL's number string, and a number that fits
   * an Int and is the value of the digits inside its own sprite URL.
   */
  function DeriveEntry(r: Result): (e: PokedexList)
    requires HasNumber(r)
    ensures e.name == TitleCaseFirst(r.name)
    ensures |e.imgUrl| >= |SPRITE_PREFIX| + |SPRITE_SUFFIX|
    ensures e.imgUrl[..|SPRITE_PREFIX|] == SPRITE_PREFIX
    ensures e.imgUrl[|e.imgUrl| - |SPRITE_SUFFIX|..] == SPRITE_SUFFIX
    ensures SpriteNumber(e.imgUrl) == NumberString(r.url)
    ensures 0 <= e.number <= INT_MAX
    ensures e.number == ParseDecimal(SpriteNumber(e.imgUrl))
  {
    var number := NumberString(r.url);
    SpriteNumberOfImgUrl(number);
    PokedexList(TitleCaseFirst(r.name), ImgUrl(number), ParseDecimal(number))
  }

  /**
   * The number is the value of the URL's digits, so `toString` gives the digits back unless
   * they had a leading zero.
   */
  lemma NumberTextOfEntry(r: Result)
    requires HasNumber(r)
    ensures IntToString(DeriveEntry(r).number) == NumberString(r.url) <==> Canonical(NumberString(r.url))
  {
    IntToStringOfParse(NumberString(r.url));
  }

  /** A URL numbered "025" gives number 25, while its sprite URL keeps the digits "025". */
  lemma LeadingZeroNumber()
    ensures HasNumber(Result("pikachu", "https://pokeapi.co/api/v2/pokemon/025/"))
    ensures DeriveEntry(Result("pikachu", "https://pokeapi.co/api/v2/pokemon/025/")).number == 25
    ensures SpriteNumber(DeriveEntry(Result("pikachu", "https://pokeapi.co/api/v2/pokemon/025/")).imgUrl) == "025"
  {
    NumberOfResourceUrl("https://pokeapi.co/api/v2/pokemon/", "025");
    assert "https://pokeapi.co/api/v2/pokemon/" + "025" + "/" == "https://pokeapi.co/api/v2/pokemon/025/";
    assert "025"[..2] == "02" && "02"[..1] == "0" && "0"[..0] == "";
    assert ParseDecimal("025") == 25;
  }

  /** `mapIndexed` over the response: one entry per summary, in response order. */
  function DeriveEntries(rs: seq<Result>): (es: seq<PokedexList>)
    requires forall i :: 0 <= i < |rs| ==> HasNumber(rs[i])
    ensures |es| == |rs|
    ensures forall i :: 0 <= i < |rs| ==> es[i] == DeriveEntry(rs[i])
  {
    seq(|rs|, i requires 0 <= i < |rs| => DeriveEntry(rs[i]))
  }

  // ------------------------------------------------------------------- search

  /**
   * The search predicate: the name contains the trimmed query ignoring case, or the number
   * printed in decimal is exactly the (untrimmed) query.
   */
  predicate Matches(e: PokedexList, query: string)
    ensures Matches(e, query) <==>
            (exists i: nat :: i + |Trim(query)| <= |e.name| && RegionMatchesIgnoreCase(e.name, i, Trim(query)))
            || IntToString(e.number) == query
  {
    ContainsIgnoreCase(e.name, Trim(query)) || IntToString(e.number) == query
  }

  /**
   * A query of digits never occurs in a name without digits, so against such a name it matches
   * exactly the entry whose number prints as the query: "2" finds number 2, not 25 or 12.
   */
  lemma DigitQueryMatchesNumberOnly(e: PokedexList, query: string)
    requires |query| > 0 && AllDigits(query)
    requires forall k :: 0 <= k < |e.name| ==> !IsDigit(e.name[k])
    ensures Matches(e, query) <==> IntToString(e.number) == query
  {
    assert !IsWhitespace(query[0]);
    assert Trim(query) == query by {
      TrimOfDigits(query);
    }
    forall i: nat | i + |query| <= |e.name| ensures !RegionMatchesIgnoreCase(e.name, i, query) {
      assert !SameIgnoringCase(e.name[i + 0], query[0]);
    }
  }

  lemma TrimOfDigits(s: string)
    requires AllDigits(s)
    ensures Trim(s) == s
  {
    if |s| > 0 {
      assert !IsWhitespace(s[0]) && !IsWhitespace(s[|s| - 1]);
      assert TrimStartIndex(s) == 0 && TrimEndIndex(s) == |s|;
    }
  }

  /**
   * The number test compares with the query as typed: a query with whitespace around it can
   * only match by name, however it is padded.
   */
  lemma PaddedQueryMatchesByNameOnly(e: PokedexList, query: string)
    requires |query| > 0 && (IsWhitespace(query[0]) || IsWhitespace(query[|query| - 1]))
    ensures Matches(e, query) <==> ContainsIgnoreCase(e.name, Trim(query))
  {
    var t := IntToString(e.number);
    assert |t| > 0 && !IsWhitespace(t[0]) && !IsWhitespace(t[|t| - 1]);
  }

  /** Kotlin's `filter`: the entries `keep` accepts, in their order. */
  function Filter(l: seq<PokedexList>, keep: PokedexList -> bool): (r: seq<PokedexList>)
    ensures |r| <= |l|
    ensures forall e :: e in r ==> e in l && keep(e)
  {
    if |l| == 0 then [] else (if keep(l[0]) then [l[0]] else []) + Filter(l[1..], keep)
  }

  /**
   * The entries a search for `query` keeps: a subsequence of the list holding, with their
   * multiplicities, exactly the entries that match the query.
   */
  function SearchResults(l: seq<PokedexList>, query: string): (r: seq<PokedexList>)
    ensures IsSubsequence(r, l)
    ensures forall e :: multiset(r)[e] == if Matches(e, query) then multiset(l)[e] else 0
  {
    var keep := e => Matches(e, query);
    FilterMeaning(l, keep);
    Filter(l, keep)
  }

  /** a is b with some elements left out, the rest kept in order. */
  ghost predicate IsSubsequence(a: seq<PokedexList>, b: seq<PokedexList>)
    decreases |b|
  {
    if |a| == 0 then true
    else if |b| == 0 then false
    else (a[0] == b[0] && IsSubsequence(a[1..], b[1..])) || IsSubsequence(a, b[1..])
  }

  lemma {:induction false} FilterIsSubsequence(l: seq<PokedexList>, keep: PokedexList -> bool)
    ensures IsSubsequence(Filter(l, keep), l)
  {
    if |l| > 0 {
      FilterIsSubsequence(l[1..], keep);
      var rest := Filter(l[1..], keep);
      if keep(l[0]) {
        assert Filter(l, keep) == [l[0]] + rest;
        assert ([l[0]] + rest)[1..] == rest;
      } else {
        assert Filter(l, keep) == rest;
        SubsequenceOfTail(rest, l);
      }
    }
  }

  lemma {:induction false} SubsequenceOfTail(a: seq<PokedexList>, b: seq<PokedexList>)
    requires |b| > 0 && IsSubsequence(a, b[1..])
    ensures IsSubsequence(a, b)
  {
  }

  /** Each entry is kept as often as it occurs in the list if `keep` accepts it, and dropped otherwise. */
  lemma {:induction false} FilterCounts(l: seq<PokedexList>, keep: PokedexList -> bool, e: PokedexList)
    ensures multiset(Filter(l, keep))[e] == if keep(e) then multiset(l)[e] else 0
  {
    if |l| > 0 {
      FilterCounts(l[1..], keep, e);
      assert l == [l[0]] + l[1..];
    }
  }

  /** Filtering a concatenation filters each part: the relative order of kept entries is kept. */
  lemma {:induction false} FilterAppend(a: seq<PokedexList>, b: seq<PokedexList>, keep: PokedexList -> bool)
    ensures Filter(a + b, keep) == Filter(a, keep) + Filter(b, keep)
  {
    if |a| > 0 {
      FilterAppend(a[1..], b, keep);
      assert (a + b)[1..] == a[1..] + b;
    } else {
      assert a + b == b;
    }
  }

  /**
   * Searching a list with a page appended gives the search results of the list followed by
   * those of the page.
   */
  lemma SearchOfAppendedPage(l: seq<PokedexList>, page: seq<PokedexList>, query: string)
    ensures SearchResults(l + page, query) == SearchResults(l, query) + SearchResults(page, query)
  {
    FilterAppend(l, page, e => Matches(e, query));
  }

  /** A filter that accepts everything keeps the list as it is. */
  lemma {:induction false} FilterKeepingAll(l: seq<PokedexList>, keep: PokedexList -> bool)
    requires forall e :: e in l ==> keep(e)
    ensures Filter(l, keep) == l
  {
    if |l| > 0 {
      FilterKeepingAll(l[1..], keep);
    }
  }

  /** The filtered list is a subsequence holding exactly the accepted entries, as often as in the list. */
  lemma FilterMeaning(l: seq<PokedexList>, keep: PokedexList -> bool)
    ensures IsSubsequence(Filter(l, keep), l)
    ensures forall e :: multiset(Filter(l, keep))[e] == if keep(e) then multiset(l)[e] else 0
  {
    FilterIsSubsequence(l, keep);
    forall e ensures multiset(Filter(l, keep))[e] == if keep(e) then multiset(l)[e] else 0 {
      FilterCounts(l, keep, e);
    }
  }

  /** A query that is all whitespace trims to "", which every name contains: nothing is dropped. */
  lemma BlankQueryKeepsAll(l: seq<PokedexList>, query: string)
    requires forall k :: 0 <= k < |query| ==> IsWhitespace(query[k])
    ensures SearchResults(l, query) == l
  {
    assert Trim(query) == "";
    forall e | e in l ensures Matches(e, query) {
      assert RegionMatchesIgnoreCase(e.name, 0, "");
    }
    FilterKeepingAll(l, e => Matches(e, query));
  }
}
