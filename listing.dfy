/**
 * The pure pieces of the job-listing scraper (fsd/app.py): the four search
 * URLs for a predicted title and a location, the job id taken from a card's
 * `data-entity-urn`, the de-duplication of ids, and the final filter that
 * drops postings without a company name.
 */
module Listing {
  import opened Wrappers
  import opened PyString
  import opened PyDict

  // ---------------------------------------------------------------------
  // generate_url_list

  const SearchEndpoint: string := "https://www.linkedin.com/jobs-guest/jobs/api/seeMoreJobPostings/search?keywords="
  const LocationParam: string := "&location="
  const StartParam: string := "&start=50"

  /** The percent-encoding of a space (section 2.1 of RFC 3986). */
  const Space20: string := "%20"
  /** The percent-encoding of '+', which a query string would decode to a space. */
  const Space2B: string := "%2B"

  /** The f-string of one search URL. */
  function SearchUrl(keywords: string, location: string): string
  {
    SearchEndpoint + keywords + LocationParam + location + StartParam
  }

  /** s.replace(" ", enc) */
  function EncodeSpaces(s: string, enc: string): (r: string)
    requires ' ' !in enc
    ensures ' ' !in r
  {
    Replace(s, ' ', enc)
  }

  /**
   * generate_url_list: (2B, 2B), (20, 20), (20, 2B), (2B, 20) as the
   * encodings of (title, location).
   */
  function GenerateUrlList(predictedJobTitle: string, location: string): (urls: seq<string>)
    ensures |urls| == 4
  {
    var title2B := EncodeSpaces(predictedJobTitle, Space2B);
    var title20 := EncodeSpaces(predictedJobTitle, Space20);
    var location20 := EncodeSpaces(location, Space20);
    var location2B := EncodeSpaces(location, Space2B);
    [SearchUrl(title2B, location2B), SearchUrl(title20, location20),
     SearchUrl(title20, location2B), SearchUrl(title2B, location20)]
  }

  /** The (title, location) encodings of the four URLs, in order. */
  function UrlEncodings(): seq<(string, string)>
  {
    [(Space2B, Space2B), (Space20, Space20), (Space20, Space2B), (Space2B, Space20)]
  }

  /** The url embeds the title and the location, each with its spaces encoded by the given encoding. */
  predicate UrlFits(url: string, predictedJobTitle: string, location: string, titleEnc: string, locationEnc: string)
  {
    var keywords := Join(Split(predictedJobTitle, ' '), titleEnc);
    var loc := Join(Split(location, ' '), locationEnc);
    && url == SearchUrl(keywords, loc)
    && ' ' !in keywords && ' ' !in loc
  }

  /**
   * Every URL is the search endpoint, the title with each space encoded,
   * the location likewise, and "&start=50"; the encodings come in the
   * fixed order, and no space is left in either embedded field.
   */
  lemma GenerateUrlListShape(predictedJobTitle: string, location: string)
    ensures var urls := GenerateUrlList(predictedJobTitle, location);
            forall i :: 0 <= i < 4 ==>
              UrlFits(urls[i], predictedJobTitle, location, UrlEncodings()[i].0, UrlEncodings()[i].1)
  {
    EncodedUrl(predictedJobTitle, location, Space2B, Space2B);
    EncodedUrl(predictedJobTitle, location, Space20, Space20);
    EncodedUrl(predictedJobTitle, location, Space20, Space2B);
    EncodedUrl(predictedJobTitle, location, Space2B, Space20);
  }

  /** One URL of the list: encoding the spaces joins the words of each field with its encoding. */
  lemma EncodedUrl(predictedJobTitle: string, location: string, titleEnc: string, locationEnc: string)
    requires ' ' !in titleEnc && ' ' !in locationEnc
    ensures UrlFits(SearchUrl(EncodeSpaces(predictedJobTitle, titleEnc), EncodeSpaces(location, locationEnc)),
                    predictedJobTitle, location, titleEnc, locationEnc)
  {
    EncodeSpacesJoin(predictedJobTitle, titleEnc);
    EncodeSpacesJoin(location, locationEnc);
  }

  /** Encoding the spaces of s joins its space-separated words with the encoding. */
  lemma EncodeSpacesJoin(s: string, enc: string)
    requires ' ' !in enc
    ensures EncodeSpaces(s, enc) == Join(Split(s, ' '), enc)
    ensures ' ' !in Join(Split(s, ' '), enc)
  {
    ReplaceIsJoinSplit(s, ' ', enc);
  }

  /** Each URL starts with the search endpoint and ends with "&start=50". */
  lemma SearchUrlEnds(keywords: string, location: string)
    ensures var url := SearchUrl(keywords, location);
            && |url| >= |SearchEndpoint| + |StartParam|
            && url[..|SearchEndpoint|] == SearchEndpoint
            && url[|url| - |StartParam|..] == StartParam
  {
    var url := SearchUrl(keywords, location);
    var middle := keywords + LocationParam + location;
    assert url == SearchEndpoint + middle + StartParam;
    assert (SearchEndpoint + middle + StartParam)[..|SearchEndpoint|] == SearchEndpoint;
  }

  // ---------------------------------------------------------------------
  // job_id = base_card_div.get("data-entity-urn").split(":")[3]

  datatype ListingError =
    /** split(":")[3] on an urn with fewer than four ':'-separated pieces: IndexError */
    | IdSegmentMissing(urn: string)

  /** The fourth ':'-separated piece of a card's urn. */
  function JobId(urn: string): (r: Result<string, ListingError>)
    ensures r.Ok? <==> multiset(urn)[':'] >= 3
    ensures r.Ok? ==> ':' !in r.value
  {
    var pieces := Split(urn, ':');
    if |pieces| < 4 then Err(IdSegmentMissing(urn)) else Ok(pieces[3])
  }

  /** An urn made of ':'-free pieces yields its fourth piece, "urn:li:jobPosting:123" yielding "123". */
  lemma JobIdOfPieces(pieces: seq<string>)
    requires |pieces| >= 4
    requires forall i :: 0 <= i < |pieces| ==> ':' !in pieces[i]
    ensures JobId(Join(pieces, [':'])) == Ok(pieces[3])
  {
    SplitJoin(pieces, ':');
  }

  /** The id_list the listing loop collects, one id per card in order; the first bad urn raises. */
  function JobIds(urns: seq<string>): (r: Result<seq<string>, ListingError>)
    ensures r.Ok? <==> forall i :: 0 <= i < |urns| ==> JobId(urns[i]).Ok?
    ensures r.Ok? ==> |r.value| == |urns| && forall i :: 0 <= i < |urns| ==> r.value[i] == JobId(urns[i]).value
  {
    if urns == [] then Ok([])
    else
      var id := JobId(urns[0]);
      if id.Err? then Err(id.error)
      else
        var rest := JobIds(urns[1..]);
        if rest.Err? then
          assert exists i :: 1 <= i < |urns| && JobId(urns[i]).Err? by {
            var j :| 0 <= j < |urns[1..]| && JobId(urns[1..][j]).Err?;
            assert urns[j + 1] == urns[1..][j];
          }
          Err(rest.error)
        else Ok([id.value] + rest.value)
  }

  // ---------------------------------------------------------------------
  // get_unique_entries

  /**
   * list(set(input_list)). Python leaves the order to the set; the model
   * keeps the first occurrence of each element, and nothing below relies
   * on that order.
   */
  function UniqueEntries<T(==, !new)>(inputList: seq<T>): (r: seq<T>)
    ensures Distinct(r)
    ensures forall x :: x in r <==> x in inputList
    ensures forall x :: x in inputList ==> multiset(r)[x] == 1
  {
    Dedup(inputList)
  }

  /** De-duplicating never lengthens the list. */
  lemma {:induction false} UniqueEntriesShorter<T(!new)>(inputList: seq<T>)
    ensures |UniqueEntries(inputList)| <= |inputList|
  {
    if inputList != [] {
      UniqueEntriesShorter(inputList[..|inputList| - 1]);
    }
  }

  /** A list without repeats loses nothing: the result holds the same elements, as often. */
  lemma UniqueEntriesOfDistinct<T(!new)>(inputList: seq<T>)
    requires Distinct(inputList)
    ensures multiset(UniqueEntries(inputList)) == multiset(inputList)
  {
    DedupOfDistinct(inputList);
  }

  // ---------------------------------------------------------------------
  // clean_job_entries

  /** A scraped posting; a field whose lookup raised is None. */
  datatype JobPosting = JobPosting(
    jobTitle: Option<string>,
    companyName: Option<string>,
    timePosted: Option<string>,
    link: Option<string>)

  /** [entry for entry in job_entries if entry['company_name'] is not None] */
  function CleanJobEntries(jobEntries: seq<JobPosting>): (r: seq<JobPosting>)
    ensures forall p :: p in r <==> p in jobEntries && p.companyName.Some?
    ensures |r| <= |jobEntries|
  {
    if jobEntries == [] then []
    else
      var head := if jobEntries[0].companyName.Some? then [jobEntries[0]] else [];
      assert jobEntries == [jobEntries[0]] + jobEntries[1..];
      head + CleanJobEntries(jobEntries[1..])
  }

  /** Filtering commutes with concatenation, so kept entries keep their relative order. */
  lemma {:induction false} CleanJobEntriesAppend(xs: seq<JobPosting>, ys: seq<JobPosting>)
    ensures CleanJobEntries(xs + ys) == CleanJobEntries(xs) + CleanJobEntries(ys)
  {
    if xs == [] {
      assert xs + ys == ys;
    } else {
      var head := if xs[0].companyName.Some? then [xs[0]] else [];
      assert (xs + ys)[0] == xs[0];
      assert (xs + ys)[1..] == xs[1..] + ys;
      assert CleanJobEntries(xs + ys) == head + CleanJobEntries(xs[1..] + ys);
      CleanJobEntriesAppend(xs[1..], ys);
    }
  }

  /** Every posting with a company is kept as often as it occurs; the others are gone. */
  lemma {:induction false} CleanJobEntriesCount(jobEntries: seq<JobPosting>, p: JobPosting)
    ensures multiset(CleanJobEntries(jobEntries))[p]
            == if p.companyName.Some? then multiset(jobEntries)[p] else 0
  {
    if jobEntries != [] {
      CleanJobEntriesCount(jobEntries[1..], p);
      assert jobEntries == [jobEntries[0]] + jobEntries[1..];
    }
  }

  /** Only entries without a company are dropped, so a second pass keeps everything. */
  lemma {:induction false} CleanJobEntriesIdempotent(jobEntries: seq<JobPosting>)
    ensures CleanJobEntries(CleanJobEntries(jobEntries)) == CleanJobEntries(jobEntries)
  {
    if jobEntries != [] {
      var head := if jobEntries[0].companyName.Some? then [jobEntries[0]] else [];
      var rest := CleanJobEntries(jobEntries[1..]);
      CleanJobEntriesIdempotent(jobEntries[1..]);
      CleanJobEntriesAppend(head, rest);
      if head != [] {
        assert CleanJobEntries(head) == head by {
          assert head[1..] == [];
        }
      }
    }
  }
}
