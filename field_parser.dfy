/**
 * parse_response_to_dict (fsd/app.py): turns the language model's
 * `Key: Value; Key: Value; ...` summary of a resume into a dict.
 *
 * Python's float() is a parameter (`parseReal`, None where float() raises
 * ValueError). Every exception the function can raise on its input is an Err.
 */
module FieldParser {
  import opened Wrappers
  import opened PyString
  import opened PyDict
  import opened TokenNormalizer

  datatype ParseError =
    /** `key, value = line.split(':', 1)` on a non-blank segment without ':' */
    | MissingColon(segment: string)
    /** `name, role = company.split(':')` (or `name, years = ...`) on an entry that is not two pieces */
    | WrongColonCount(entry: string, pieces: nat)

  /** Python's float() on a stripped string: None where it raises ValueError. */
  type RealParser = string -> Option<real>

  const TotalKey: string := "Total Years of Experience"

  /** The characters of years.strip("'{} "). */
  const YearsArtifacts: set<char> := {'\'', '{', '}', ' '}

  /** A dict built by parse_response_to_dict. */
  type Profile = Dict<string, Value>

  /** [x.strip() for x in value.split(',')]: the Skills and Languages lists. */
  function ListField(value: string): seq<string>
  {
    TrimAll(Split(value, ','))
  }

  /** What a years text adds up to: float(years.strip("'{} ")), or 0.0 where that raises. */
  function Years(yearsText: string, parseReal: RealParser): real
  {
    parseReal(Strip(yearsText, YearsArtifacts)).GetOr(0.0)
  }

  /** `name, role = company.split(':')`, both stripped. */
  function CompanyEntry(entry: string): Result<(string, string), ParseError>
  {
    var parts := Split(entry, ':');
    if |parts| != 2 then Err(WrongColonCount(entry, |parts|))
    else Ok((Strip(parts[0], Whitespace), Strip(parts[1], Whitespace)))
  }

  /** `name, years = experience.split(':')`: the stripped name and the years it adds. */
  function ExperienceEntry(entry: string, parseReal: RealParser): Result<(string, real), ParseError>
  {
    var parts := Split(entry, ':');
    if |parts| != 2 then Err(WrongColonCount(entry, |parts|))
    else Ok((Strip(parts[0], Whitespace), Years(parts[1], parseReal)))
  }

  /** The inner loop over Companies entries, from the dict built so far. */
  function ParseCompanies(acc: Profile, entries: seq<string>): Result<Profile, ParseError>
    decreases |entries|
  {
    if entries == [] then Ok(acc)
    else
      var entry := CompanyEntry(entries[0]);
      if entry.Err? then Err(entry.error)
      else ParseCompanies(Put(acc, entry.value.0, Text(entry.value.1)), entries[1..])
  }

  /** The inner loop over Experience entries, from the dict built so far. */
  function ParseExperience(acc: Profile, entries: seq<string>, parseReal: RealParser): Result<Profile, ParseError>
    decreases |entries|
  {
    if entries == [] then Ok(acc)
    else
      var entry := ExperienceEntry(entries[0], parseReal);
      if entry.Err? then Err(entry.error)
      else ParseExperience(Put(acc, entry.value.0, Number(entry.value.1)), entries[1..], parseReal)
  }

  /** The years an Experience entry adds to total_experience (0.0 for one that raises, which ends the loop anyway). */
  function EntryYears(entry: string, parseReal: RealParser): real
  {
    var e := ExperienceEntry(entry, parseReal);
    if e.Ok? then e.value.1 else 0.0
  }

  /** total_experience after the given entries: their years added up in order, from 0.0. */
  function TotalYears(entries: seq<string>, parseReal: RealParser): real
  {
    if entries == [] then 0.0
    else TotalYears(entries[..|entries| - 1], parseReal) + EntryYears(entries[|entries| - 1], parseReal)
  }

  /** The Experience loop's outcome: experiences_dict and total_experience, or the entry error. */
  function ExperienceWithTotal(entries: seq<string>, parseReal: RealParser): Result<(Profile, real), ParseError>
  {
    var experiences := ParseExperience([], entries, parseReal);
    if experiences.Err? then Err(experiences.error) else Ok((experiences.value, TotalYears(entries, parseReal)))
  }

  /** What a segment with the given (stripped) key and value stores into d. */
  function StoreField(d: Profile, key: string, value: string, parseReal: RealParser): Result<Profile, ParseError>
  {
    if key == "Skills" || key == "Languages" then Ok(Put(d, key, List(ListField(value))))
    else if key == "Companies" then
      match ParseCompanies([], Split(value, ','))
      case Err(e) => Err(e)
      case Ok(companies) => Ok(Put(d, key, Mapping(CleanDict(companies))))
    else if key == "Experience" then
      var entries := Split(value, ',');
      match ParseExperience([], entries, parseReal)
      case Err(e) => Err(e)
      case Ok(experiences) =>
        Ok(Put(Put(d, key, Mapping(CleanDict(experiences))), TotalKey, Number(TotalYears(entries, parseReal))))
    else Ok(Put(d, key, Text(value)))
  }

  /** One pass of the outer loop: blank segments leave d alone. */
  function ParseSegment(d: Profile, line: string, parseReal: RealParser): Result<Profile, ParseError>
  {
    if Strip(line, Whitespace) == [] then Ok(d)
    else
      match SplitOnce(line, ':')
      case None => Err(MissingColon(line))
      case Some((k, v)) => StoreField(d, Strip(k, Whitespace), Strip(v, Whitespace), parseReal)
  }

  /** The outer loop over the remaining segments, from the dict built so far. */
  function ParseLines(d: Profile, lines: seq<string>, parseReal: RealParser): Result<Profile, ParseError>
    decreases |lines|
  {
    if lines == [] then Ok(d)
    else
      match ParseSegment(d, lines[0], parseReal)
      case Err(e) => Err(e)
      case Ok(d') => ParseLines(d', lines[1..], parseReal)
  }

  /** parse_response_to_dict as a function of its input. */
  function ParseResponse(response: string, parseReal: RealParser): Result<Profile, ParseError>
  {
    ParseLines([], Split(response, ';'), parseReal)
  }

  // One unfolding of each loop, stated once so that the proofs below can
  // use it without unfolding the definitions in a large context.

  lemma CompaniesStep(acc: Profile, entries: seq<string>)
    requires entries != []
    ensures ParseCompanies(acc, entries)
            == var entry := CompanyEntry(entries[0]);
               if entry.Err? then Err(entry.error)
               else ParseCompanies(Put(acc, entry.value.0, Text(entry.value.1)), entries[1..])
  {
  }

  lemma ExperienceStep(acc: Profile, entries: seq<string>, parseReal: RealParser)
    requires entries != []
    ensures ParseExperience(acc, entries, parseReal)
            == var entry := ExperienceEntry(entries[0], parseReal);
               if entry.Err? then Err(entry.error)
               else ParseExperience(Put(acc, entry.value.0, Number(entry.value.1)), entries[1..], parseReal)
  {
  }

  lemma TotalYearsStep(entries: seq<string>, j: nat, parseReal: RealParser)
    requires j < |entries|
    ensures TotalYears(entries[..j + 1], parseReal) == TotalYears(entries[..j], parseReal) + EntryYears(entries[j], parseReal)
  {
    assert entries[..j + 1][..j] == entries[..j];
  }

  lemma LinesStep(d: Profile, lines: seq<string>, parseReal: RealParser)
    requires lines != []
    ensures ParseLines(d, lines, parseReal)
            == var next := ParseSegment(d, lines[0], parseReal);
               if next.Err? then Err(next.error) else ParseLines(next.value, lines[1..], parseReal)
  {
  }

  /** LinesStep at index i of the segment loop. */
  lemma LinesAt(d: Profile, lines: seq<string>, i: nat, parseReal: RealParser)
    requires i < |lines|
    ensures ParseLines(d, lines[i..], parseReal)
            == var next := ParseSegment(d, lines[i], parseReal);
               if next.Err? then Err(next.error) else ParseLines(next.value, lines[i + 1..], parseReal)
  {
    assert lines[i..][0] == lines[i] && lines[i..][1..] == lines[i + 1..];
    LinesStep(d, lines[i..], parseReal);
  }

  /** A non-blank segment with a ':' stores its stripped key and value. */
  lemma SegmentStep(d: Profile, line: string, parseReal: RealParser)
    requires SegmentParts(line).Some?
    ensures ParseSegment(d, line, parseReal)
            == StoreField(d, SegmentParts(line).value.0, SegmentParts(line).value.1, parseReal)
  {
  }

  /** parse_response_to_dict, as the loop that fills response_dict. */
  method ParseResponseToDict(response: string, parseReal: RealParser) returns (r: Result<Profile, ParseError>)
    ensures r == ParseResponse(response, parseReal)
  {
    var lines := Split(response, ';');
    var responseDict: Profile := [];
    for i := 0 to |lines|
      invariant ParseLines(responseDict, lines[i..], parseReal) == ParseResponse(response, parseReal)
    {
      LinesAt(responseDict, lines, i, parseReal);
      var next := ParseSegmentInto(responseDict, lines[i], parseReal);
      if next.Err? {
        return Err(next.error);
      }
      responseDict := next.value;
    }
    return Ok(responseDict);
  }

  /** One pass of the segment loop: skip a blank segment, split off the key and store the value. */
  method ParseSegmentInto(responseDict: Profile, line: string, parseReal: RealParser) returns (r: Result<Profile, ParseError>)
    ensures r == ParseSegment(responseDict, line, parseReal)
  {
    if Strip(line, Whitespace) == [] {
      return Ok(responseDict);
    }
    var kv := SplitOnce(line, ':');
    if kv.None? {
      return Err(MissingColon(line));
    }
    var key := Strip(kv.value.0, Whitespace);
    var value := Strip(kv.value.1, Whitespace);
    assert SegmentParts(line) == Some((key, value));
    SegmentStep(responseDict, line, parseReal);
    r := StoreFieldInto(responseDict, key, value, parseReal);
  }

  /** The branches on the key that store a segment's value into response_dict. */
  method StoreFieldInto(responseDict: Profile, key: string, value: string, parseReal: RealParser) returns (r: Result<Profile, ParseError>)
    ensures r == StoreField(responseDict, key, value, parseReal)
  {
    if key == "Skills" {
      r := Ok(Put(responseDict, key, List(TrimAll(Split(value, ',')))));
    } else if key == "Languages" {
      r := Ok(Put(responseDict, key, List(TrimAll(Split(value, ',')))));
    } else if key == "Companies" {
      var companies := ParseCompanyEntries(value);
      if companies.Err? {
        return Err(companies.error);
      }
      var cleaned := CleanDictKeys(companies.value);
      r := Ok(Put(responseDict, key, Mapping(cleaned)));
    } else if key == "Experience" {
      var experiences := ParseExperienceEntries(value, parseReal);
      if experiences.Err? {
        return Err(experiences.error);
      }
      var experiencesDict, totalExperience := experiences.value.0, experiences.value.1;
      var cleaned := CleanDictKeys(experiencesDict);
      var withExperience := Put(responseDict, key, Mapping(cleaned));
      r := Ok(Put(withExperience, TotalKey, Number(totalExperience)));
    } else {
      r := Ok(Put(responseDict, key, Text(value)));
    }
  }

  /** The loop that fills companies_dict from a Companies value. */
  method ParseCompanyEntries(value: string) returns (r: Result<Profile, ParseError>)
    ensures r == ParseCompanies([], Split(value, ','))
  {
    var companies := Split(value, ',');
    var companiesDict: Profile := [];
    for j := 0 to |companies|
      invariant ParseCompanies(companiesDict, companies[j..]) == ParseCompanies([], companies)
    {
      var entry := CompanyEntry(companies[j]);
      if entry.Err? {
        CompaniesLoopErr(companiesDict, companies, j);
        return Err(entry.error);
      }
      var name, role := entry.value.0, entry.value.1;
      CompaniesLoopOk(companiesDict, companies, j, name, role);
      companiesDict := Put(companiesDict, name, Text(role));
    }
    return Ok(companiesDict);
  }

  /** A bad entry at j ends the Companies loop with its error. */
  lemma CompaniesLoopErr(acc: Profile, entries: seq<string>, j: nat)
    requires j < |entries| && CompanyEntry(entries[j]).Err?
    ensures ParseCompanies(acc, entries[j..]) == Err(CompanyEntry(entries[j]).error)
  {
    assert entries[j..][0] == entries[j];
    CompaniesStep(acc, entries[j..]);
  }

  /** An entry at j that parses is stored under its company name. */
  lemma CompaniesLoopOk(acc: Profile, entries: seq<string>, j: nat, name: string, role: string)
    requires j < |entries| && CompanyEntry(entries[j]) == Ok((name, role))
    ensures ParseCompanies(acc, entries[j..]) == ParseCompanies(Put(acc, name, Text(role)), entries[j + 1..])
  {
    assert entries[j..][0] == entries[j] && entries[j..][1..] == entries[j + 1..];
    CompaniesStep(acc, entries[j..]);
  }

  /** The loop that fills experiences_dict and total_experience from an Experience value. */
  method ParseExperienceEntries(value: string, parseReal: RealParser) returns (r: Result<(Profile, real), ParseError>)
    ensures r == ExperienceWithTotal(Split(value, ','), parseReal)
  {
    var experiences := Split(value, ',');
    var experiencesDict: Profile := [];
    var totalExperience: real := 0.0;
    for j := 0 to |experiences|
      invariant ParseExperience(experiencesDict, experiences[j..], parseReal) == ParseExperience([], experiences, parseReal)
      invariant totalExperience == TotalYears(experiences[..j], parseReal)
    {
      var entry := ExperienceEntry(experiences[j], parseReal);
      if entry.Err? {
        ExperienceLoopErr(experiencesDict, experiences, j, parseReal);
        ExperienceLoopFailed(experiences, entry.error, parseReal);
        return Err(entry.error);
      }
      var name, years := entry.value.0, entry.value.1;
      ExperienceLoopOk(experiencesDict, experiences, j, name, years, parseReal);
      experiencesDict := Put(experiencesDict, name, Number(years));
      totalExperience := totalExperience + years;
    }
    ExperienceLoopDone(experiencesDict, experiences, parseReal);
    return Ok((experiencesDict, totalExperience));
  }

  /** When the loop raises, so does ExperienceWithTotal, with the same error. */
  lemma ExperienceLoopFailed(entries: seq<string>, e: ParseError, parseReal: RealParser)
    requires ParseExperience([], entries, parseReal) == Err(e)
    ensures ExperienceWithTotal(entries, parseReal) == Err(e)
  {
  }

  /** When the loop runs to the end, its dict and total are ExperienceWithTotal's. */
  lemma ExperienceLoopDone(acc: Profile, entries: seq<string>, parseReal: RealParser)
    requires ParseExperience(acc, entries[|entries|..], parseReal) == ParseExperience([], entries, parseReal)
    ensures ExperienceWithTotal(entries, parseReal) == Ok((acc, TotalYears(entries[..|entries|], parseReal)))
  {
    assert entries[..|entries|] == entries && entries[|entries|..] == [];
  }

  /** A bad entry at j ends the Experience loop with its error. */
  lemma ExperienceLoopErr(acc: Profile, entries: seq<string>, j: nat, parseReal: RealParser)
    requires j < |entries| && ExperienceEntry(entries[j], parseReal).Err?
    ensures ParseExperience(acc, entries[j..], parseReal) == Err(ExperienceEntry(entries[j], parseReal).error)
  {
    assert entries[j..][0] == entries[j];
    ExperienceStep(acc, entries[j..], parseReal);
  }

  /** An entry at j that parses is stored under its role, and its years join the total. */
  lemma ExperienceLoopOk(acc: Profile, entries: seq<string>, j: nat, role: string, years: real, parseReal: RealParser)
    requires j < |entries| && ExperienceEntry(entries[j], parseReal) == Ok((role, years))
    ensures ParseExperience(acc, entries[j..], parseReal) == ParseExperience(Put(acc, role, Number(years)), entries[j + 1..], parseReal)
    ensures TotalYears(entries[..j + 1], parseReal) == TotalYears(entries[..j], parseReal) + years
  {
    assert entries[j..][0] == entries[j] && entries[j..][1..] == entries[j + 1..];
    ExperienceStep(acc, entries[j..], parseReal);
    TotalYearsStep(entries, j, parseReal);
  }

  // ---------------------------------------------------------------------
  // Lists

  /**
   * A Skills or Languages value gives one string per ','-separated piece,
   * in order, each with its surrounding whitespace removed; "" gives [""].
   */
  lemma ListFieldPieces(value: string)
    ensures |ListField(value)| == multiset(value)[','] + 1
    ensures forall i :: 0 <= i < |ListField(value)| ==> ListField(value)[i] == Strip(Split(value, ',')[i], Whitespace)
    ensures Join(Split(value, ','), [',']) == value
    ensures value == [] ==> ListField(value) == [[]]
  {
    JoinSplit(value, ',');
  }

  // ---------------------------------------------------------------------
  // Which inputs raise

  /** An entry of a Companies or Experience value with other than exactly one ':'. */
  predicate BadEntry(entry: string) {
    multiset(entry)[':'] != 1
  }

  lemma CompanyEntryFails(entry: string)
    ensures CompanyEntry(entry).Err? <==> BadEntry(entry)
  {
  }

  lemma ExperienceEntryFails(entry: string, parseReal: RealParser)
    ensures ExperienceEntry(entry, parseReal).Err? <==> BadEntry(entry)
  {
  }

  /** The stripped key and value of a non-blank segment that has a ':'. */
  function SegmentParts(line: string): Option<(string, string)>
  {
    if Strip(line, Whitespace) == [] then None
    else
      match SplitOnce(line, ':')
      case None => None
      case Some((k, v)) => Some((Strip(k, Whitespace), Strip(v, Whitespace)))
  }

  /**
   * A segment that makes parse_response_to_dict raise: a non-blank one
   * without ':', or a Companies or Experience one with a bad entry.
   */
  predicate SegmentFails(line: string) {
    && Strip(line, Whitespace) != []
    && (match SegmentParts(line)
        case None => true
        case Some((key, value)) =>
          && (key == "Companies" || key == "Experience")
          && exists e :: e in Split(value, ',') && BadEntry(e))
  }

  lemma {:induction false} CompaniesFail(acc: Profile, entries: seq<string>)
    ensures ParseCompanies(acc, entries).Err? <==> exists e :: e in entries && BadEntry(e)
    decreases |entries|
  {
    if entries != [] {
      CompaniesStep(acc, entries);
      CompanyEntryFails(entries[0]);
      assert forall e :: e in entries <==> e == entries[0] || e in entries[1..];
      if CompanyEntry(entries[0]).Ok? {
        var entry := CompanyEntry(entries[0]).value;
        CompaniesFail(Put(acc, entry.0, Text(entry.1)), entries[1..]);
      }
    }
  }

  lemma {:induction false} ExperienceFail(acc: Profile, entries: seq<string>, parseReal: RealParser)
    ensures ParseExperience(acc, entries, parseReal).Err? <==> exists e :: e in entries && BadEntry(e)
    decreases |entries|
  {
    if entries != [] {
      ExperienceStep(acc, entries, parseReal);
      ExperienceEntryFails(entries[0], parseReal);
      assert forall e :: e in entries <==> e == entries[0] || e in entries[1..];
      if ExperienceEntry(entries[0], parseReal).Ok? {
        var entry := ExperienceEntry(entries[0], parseReal).value;
        ExperienceFail(Put(acc, entry.0, Number(entry.1)), entries[1..], parseReal);
      }
    }
  }

  /** A Companies value raises exactly when one of its entries is bad. */
  lemma StoreCompaniesFails(d: Profile, value: string, parseReal: RealParser)
    ensures StoreField(d, "Companies", value, parseReal).Err? <==> exists e :: e in Split(value, ',') && BadEntry(e)
  {
    FieldKeys();
    CompaniesFail([], Split(value, ','));
  }

  /** An Experience value raises exactly when one of its entries is bad. */
  lemma StoreExperienceFails(d: Profile, value: string, parseReal: RealParser)
    ensures StoreField(d, "Experience", value, parseReal).Err? <==> exists e :: e in Split(value, ',') && BadEntry(e)
  {
    FieldKeys();
    ExperienceFail([], Split(value, ','), parseReal);
  }

  /** Storing a field raises only for a Companies or Experience value with a bad entry. */
  lemma StoreFieldFails(d: Profile, key: string, value: string, parseReal: RealParser)
    ensures StoreField(d, key, value, parseReal).Err?
            <==> (key == "Companies" || key == "Experience") && exists e :: e in Split(value, ',') && BadEntry(e)
  {
    if key == "Companies" {
      StoreCompaniesFails(d, value, parseReal);
    } else if key == "Experience" {
      StoreExperienceFails(d, value, parseReal);
    }
  }

  /** Whether a segment raises does not depend on what was parsed before it. */
  lemma SegmentFailsExactly(d: Profile, line: string, parseReal: RealParser)
    ensures ParseSegment(d, line, parseReal).Err? <==> SegmentFails(line)
  {
    var parts := SegmentParts(line);
    if parts.Some? {
      SegmentStep(d, line, parseReal);
      StoreFieldFails(d, parts.value.0, parts.value.1, parseReal);
    }
  }

  lemma {:induction false} LinesFail(d: Profile, lines: seq<string>, parseReal: RealParser)
    ensures ParseLines(d, lines, parseReal).Err? <==> exists l :: l in lines && SegmentFails(l)
    decreases |lines|
  {
    if lines != [] {
      SegmentFailsExactly(d, lines[0], parseReal);
      LinesStep(d, lines, parseReal);
      assert forall l :: l in lines <==> l == lines[0] || l in lines[1..];
      match ParseSegment(d, lines[0], parseReal)
      case Err(_) =>
      case Ok(d') => LinesFail(d', lines[1..], parseReal);
    }
  }

  /**
   * parse_response_to_dict raises exactly when some ';'-separated segment is
   * non-blank without ':', or is a Companies or Experience segment with an
   * entry that does not hold exactly one ':'. Such segments are not skipped.
   */
  lemma ParseFailsExactly(response: string, parseReal: RealParser)
    ensures ParseResponse(response, parseReal).Err?
            <==> exists l :: l in Split(response, ';') && SegmentFails(l)
  {
    LinesFail([], Split(response, ';'), parseReal);
  }

  // ---------------------------------------------------------------------
  // What companies_dict and experiences_dict hold

  /** A well-formed entry "name:role" yields the name and the role, both stripped. */
  lemma CompanyEntryOf(name: string, role: string)
    requires ':' !in name && ':' !in role
    ensures CompanyEntry(name + [':'] + role) == Ok((Strip(name, Whitespace), Strip(role, Whitespace)))
  {
    assert Join([name, role], [':']) == name + [':'] + role;
    SplitJoin([name, role], ':');
  }

  /** The role given by the last entry for the company name, if any entry names it. */
  function LastCompanyRole(entries: seq<string>, name: string): Option<string>
    decreases |entries|
  {
    if entries == [] then None
    else
      var later := LastCompanyRole(entries[1..], name);
      if later.Some? then later
      else
        var entry := CompanyEntry(entries[0]);
        if entry.Ok? && entry.value.0 == name then Some(entry.value.1) else None
  }

  /** An entry names the company exactly when LastCompanyRole finds a role for it. */
  lemma {:induction false} LastCompanyRoleSome(entries: seq<string>, name: string)
    ensures LastCompanyRole(entries, name).Some?
            <==> exists i :: 0 <= i < |entries| && CompanyEntry(entries[i]).Ok? && CompanyEntry(entries[i]).value.0 == name
    decreases |entries|
  {
    if entries != [] {
      LastCompanyRoleSome(entries[1..], name);
      assert forall i :: 0 < i < |entries| ==> entries[i] == entries[1..][i - 1];
    }
  }

  /**
   * Each company name holds the role of its LAST entry, a later entry
   * overwriting an earlier one; a name no entry gives keeps what acc held.
   */
  lemma {:induction false} CompaniesLookup(acc: Profile, entries: seq<string>, name: string)
    requires ParseCompanies(acc, entries).Ok?
    ensures Get(ParseCompanies(acc, entries).value, name)
            == match LastCompanyRole(entries, name)
               case None => Get(acc, name)
               case Some(role) => Some(Text(role))
    decreases |entries|
  {
    if entries != [] {
      var name0, role0 := CompaniesLookupStep(acc, entries);
      var acc' := Put(acc, name0, Text(role0));
      CompaniesLookup(acc', entries[1..], name);
      assert Get(acc', name) == if name == name0 then Some(Text(role0)) else Get(acc, name);
    }
  }

  /** The first entry of a successful Companies loop parses, and the loop goes on from the dict it updates. */
  lemma CompaniesLookupStep(acc: Profile, entries: seq<string>) returns (name: string, role: string)
    requires entries != [] && ParseCompanies(acc, entries).Ok?
    ensures CompanyEntry(entries[0]) == Ok((name, role))
    ensures ParseCompanies(acc, entries) == ParseCompanies(Put(acc, name, Text(role)), entries[1..])
  {
    CompaniesStep(acc, entries);
    name, role := CompanyEntry(entries[0]).value.0, CompanyEntry(entries[0]).value.1;
  }

  /** The keys of companies_dict are exactly the company names its entries give. */
  lemma CompaniesKeys(entries: seq<string>, name: string)
    requires ParseCompanies([], entries).Ok?
    ensures name in Keys(ParseCompanies([], entries).value)
            <==> exists i :: 0 <= i < |entries| && CompanyEntry(entries[i]).Ok? && CompanyEntry(entries[i]).value.0 == name
  {
    CompaniesLookup([], entries, name);
    LastCompanyRoleSome(entries, name);
  }

  /** The years given by the last entry for the role, if any entry names it. */
  function LastRoleYears(entries: seq<string>, role: string, parseReal: RealParser): Option<real>
    decreases |entries|
  {
    if entries == [] then None
    else
      var later := LastRoleYears(entries[1..], role, parseReal);
      if later.Some? then later
      else
        var entry := ExperienceEntry(entries[0], parseReal);
        if entry.Ok? && entry.value.0 == role then Some(entry.value.1) else None
  }

  /** An entry names the role exactly when LastRoleYears finds years for it. */
  lemma {:induction false} LastRoleYearsSome(entries: seq<string>, role: string, parseReal: RealParser)
    ensures LastRoleYears(entries, role, parseReal).Some?
            <==> exists i :: 0 <= i < |entries| && ExperienceEntry(entries[i], parseReal).Ok?
                                                && ExperienceEntry(entries[i], parseReal).value.0 == role
    decreases |entries|
  {
    if entries != [] {
      LastRoleYearsSome(entries[1..], role, parseReal);
      assert forall i :: 0 < i < |entries| ==> entries[i] == entries[1..][i - 1];
    }
  }

  /**
   * Each role holds the years of its LAST entry, a later entry overwriting
   * an earlier one; a role no entry gives keeps what acc held.
   */
  lemma {:induction false} ExperienceLookup(acc: Profile, entries: seq<string>, role: string, parseReal: RealParser)
    requires ParseExperience(acc, entries, parseReal).Ok?
    ensures Get(ParseExperience(acc, entries, parseReal).value, role)
            == match LastRoleYears(entries, role, parseReal)
               case None => Get(acc, role)
               case Some(years) => Some(Number(years))
    decreases |entries|
  {
    if entries != [] {
      var role0, years0 := ExperienceLookupStep(acc, entries, parseReal);
      var acc' := Put(acc, role0, Number(years0));
      ExperienceLookup(acc', entries[1..], role, parseReal);
      assert Get(acc', role) == if role == role0 then Some(Number(years0)) else Get(acc, role);
    }
  }

  /** The first entry of a successful Experience loop parses, and the loop goes on from the dict it updates. */
  lemma ExperienceLookupStep(acc: Profile, entries: seq<string>, parseReal: RealParser) returns (role: string, years: real)
    requires entries != [] && ParseExperience(acc, entries, parseReal).Ok?
    ensures ExperienceEntry(entries[0], parseReal) == Ok((role, years))
    ensures ParseExperience(acc, entries, parseReal) == ParseExperience(Put(acc, role, Number(years)), entries[1..], parseReal)
  {
    ExperienceStep(acc, entries, parseReal);
    role, years := ExperienceEntry(entries[0], parseReal).value.0, ExperienceEntry(entries[0], parseReal).value.1;
  }

  /** The keys of experiences_dict are exactly the roles its entries give. */
  lemma ExperienceKeys(entries: seq<string>, role: string, parseReal: RealParser)
    requires ParseExperience([], entries, parseReal).Ok?
    ensures role in Keys(ParseExperience([], entries, parseReal).value)
            <==> exists i :: 0 <= i < |entries| && ExperienceEntry(entries[i], parseReal).Ok?
                                                && ExperienceEntry(entries[i], parseReal).value.0 == role
  {
    ExperienceLookup([], entries, role, parseReal);
    LastRoleYearsSome(entries, role, parseReal);
  }

  // ---------------------------------------------------------------------
  // Which segment a key's value comes from

  /** The last segment of lines with the (stripped) key k. */
  function LastSegment(lines: seq<string>, k: string): Option<string>
    decreases |lines|
  {
    if lines == [] then None
    else
      var later := LastSegment(lines[1..], k);
      if later.Some? then later
      else if SegmentParts(lines[0]).Some? && SegmentParts(lines[0]).value.0 == k then Some(lines[0])
      else None
  }

  /** The four keys the segment loop dispatches on are distinct. */
  lemma FieldKeys()
    ensures "Skills" != "Languages" && "Skills" != "Companies" && "Skills" != "Experience"
    ensures "Languages" != "Companies" && "Languages" != "Experience"
    ensures "Companies" != "Experience"
  {
  }

  /** Storing a field sets its own key as it would in an empty dict and changes no other key but the total. */
  lemma StoreFieldEffect(d: Profile, key: string, value: string, k: string, parseReal: RealParser)
    requires StoreField(d, key, value, parseReal).Ok?
    requires k != TotalKey
    ensures StoreField([], key, value, parseReal).Ok?
    ensures Get(StoreField(d, key, value, parseReal).value, k)
            == if key == k then Get(StoreField([], key, value, parseReal).value, k) else Get(d, k)
  {
    if key == "Experience" {
      StoreExperienceEffect(d, value, k, parseReal);
    } else {
      FieldKeys();
    }
  }

  /** An Experience value is stored exactly when all its entries parse. */
  lemma ExperienceStoredOk(d: Profile, value: string, parseReal: RealParser)
    ensures StoreField(d, "Experience", value, parseReal).Ok? == ParseExperience([], Split(value, ','), parseReal).Ok?
  {
    FieldKeys();
  }

  /** What an Experience value whose entries parse stores: the cleaned mapping, then the total. */
  lemma ExperienceStored(d: Profile, value: string, parseReal: RealParser)
    requires ParseExperience([], Split(value, ','), parseReal).Ok?
    ensures StoreField(d, "Experience", value, parseReal)
            == var entries := Split(value, ',');
               var m := Mapping(CleanDict(ParseExperience([], entries, parseReal).value));
               Ok(Put(Put(d, "Experience", m), TotalKey, Number(TotalYears(entries, parseReal))))
  {
    FieldKeys();
  }

  /** An Experience value sets "Experience" and the total, and no other key. */
  lemma StoreExperienceEffect(d: Profile, value: string, k: string, parseReal: RealParser)
    requires StoreField(d, "Experience", value, parseReal).Ok?
    requires k != TotalKey
    ensures StoreField([], "Experience", value, parseReal).Ok?
    ensures Get(StoreField(d, "Experience", value, parseReal).value, k)
            == if k == "Experience" then Get(StoreField([], "Experience", value, parseReal).value, k) else Get(d, k)
  {
    ExperienceStoredOk(d, value, parseReal);
    ExperienceStored(d, value, parseReal);
    ExperienceStored([], value, parseReal);
    var entries := Split(value, ',');
    var m := Mapping(CleanDict(ParseExperience([], entries, parseReal).value));
    ExperienceAndTotal(d, m, Number(TotalYears(entries, parseReal)), k);
  }

  /** Setting "Experience" and then the total changes, among the other keys, only "Experience". */
  lemma ExperienceAndTotal(d: Profile, m: Value, total: Value, k: string)
    requires k != TotalKey
    ensures Get(Put(Put(d, "Experience", m), TotalKey, total), k)
            == if k == "Experience" then Get(Put(Put([], "Experience", m), TotalKey, total), k) else Get(d, k)
  {
  }

  /** A segment stores under its own key what it would store into an empty dict, and changes no other key but the total. */
  lemma SegmentEffect(d: Profile, line: string, k: string, parseReal: RealParser)
    requires ParseSegment(d, line, parseReal).Ok?
    requires k != TotalKey
    ensures ParseSegment([], line, parseReal).Ok?
    ensures Get(ParseSegment(d, line, parseReal).value, k)
            == if SegmentParts(line).Some? && SegmentParts(line).value.0 == k
               then Get(ParseSegment([], line, parseReal).value, k)
               else Get(d, k)
  {
    SegmentFailsExactly(d, line, parseReal);
    SegmentFailsExactly([], line, parseReal);
    var parts := SegmentParts(line);
    if parts.Some? {
      SegmentStep(d, line, parseReal);
      SegmentStep([], line, parseReal);
      StoreFieldEffect(d, parts.value.0, parts.value.1, k, parseReal);
    }
  }

  lemma {:induction false} LastSegmentWinsFrom(d: Profile, lines: seq<string>, k: string, parseReal: RealParser)
    requires ParseLines(d, lines, parseReal).Ok?
    requires k != TotalKey
    ensures match LastSegment(lines, k)
            case None => Get(ParseLines(d, lines, parseReal).value, k) == Get(d, k)
            case Some(seg) =>
              && ParseSegment([], seg, parseReal).Ok?
              && Get(ParseLines(d, lines, parseReal).value, k) == Get(ParseSegment([], seg, parseReal).value, k)
    decreases |lines|
  {
    if lines != [] {
      LinesStep(d, lines, parseReal);
      var d' := ParseSegment(d, lines[0], parseReal).value;
      LastSegmentWinsFrom(d', lines[1..], k, parseReal);
      SegmentEffect(d, lines[0], k, parseReal);
    }
  }

  /**
   * Every key other than the total holds what the LAST segment with that key
   * stores, as if it were alone; a key no segment names is absent. A later
   * segment with the same key overwrites an earlier one.
   */
  lemma LastSegmentWins(response: string, k: string, parseReal: RealParser)
    requires ParseResponse(response, parseReal).Ok?
    requires k != TotalKey
    ensures match LastSegment(Split(response, ';'), k)
            case None => Get(ParseResponse(response, parseReal).value, k) == None
            case Some(seg) =>
              && ParseSegment([], seg, parseReal).Ok?
              && Get(ParseResponse(response, parseReal).value, k) == Get(ParseSegment([], seg, parseReal).value, k)
  {
    LastSegmentWinsFrom([], Split(response, ';'), k, parseReal);
  }

  // ---------------------------------------------------------------------
  // Total years of experience

  /** The total is additive over the entries: two runs of entries add up their years. */
  lemma {:induction false} TotalYearsAppend(xs: seq<string>, ys: seq<string>, parseReal: RealParser)
    ensures TotalYears(xs + ys, parseReal) == TotalYears(xs, parseReal) + TotalYears(ys, parseReal)
    decreases |ys|
  {
    if ys == [] {
      assert xs + ys == xs;
    } else {
      var n := |ys| - 1;
      assert (xs + ys)[..|xs + ys| - 1] == xs + ys[..n];
      assert (xs + ys)[|xs + ys| - 1] == ys[n];
      TotalYearsAppend(xs, ys[..n], parseReal);
    }
  }

  /**
   * An Experience segment sets "Total Years of Experience" to the sum of the
   * years of EVERY entry, unparsable ones counting 0.0 and entries with a
   * repeated role counting each time.
   */
  lemma ExperienceSegmentTotal(d: Profile, line: string, parseReal: RealParser)
    requires SegmentParts(line).Some? && SegmentParts(line).value.0 == "Experience"
    requires ParseSegment(d, line, parseReal).Ok?
    ensures Get(ParseSegment(d, line, parseReal).value, TotalKey)
            == Some(Number(TotalYears(Split(SegmentParts(line).value.1, ','), parseReal)))
  {
    SegmentStep(d, line, parseReal);
    StoreExperienceTotal(d, SegmentParts(line).value.1, parseReal);
  }

  lemma StoreExperienceTotal(d: Profile, value: string, parseReal: RealParser)
    requires StoreField(d, "Experience", value, parseReal).Ok?
    ensures Get(StoreField(d, "Experience", value, parseReal).value, TotalKey)
            == Some(Number(TotalYears(Split(value, ','), parseReal)))
  {
    ExperienceStoredOk(d, value, parseReal);
    ExperienceStored(d, value, parseReal);
  }

  /** A segment that sets the total: one keyed "Experience", or keyed "Total Years of Experience" itself. */
  predicate SetsTotal(line: string) {
    SegmentParts(line).Some? && (SegmentParts(line).value.0 == "Experience" || SegmentParts(line).value.0 == TotalKey)
  }

  /** The last segment of lines that sets the total. */
  function LastTotalSegment(lines: seq<string>): Option<string>
    decreases |lines|
  {
    if lines == [] then None
    else
      var later := LastTotalSegment(lines[1..]);
      if later.Some? then later
      else if SetsTotal(lines[0]) then Some(lines[0])
      else None
  }

  /** What a segment stores under the total: the sum of an Experience value's years, or the text given for the key. */
  function TotalStored(line: string, parseReal: RealParser): Option<Value>
  {
    match SegmentParts(line)
    case None => None
    case Some(parts) =>
      if parts.0 == "Experience" then Some(Number(TotalYears(Split(parts.1, ','), parseReal)))
      else if parts.0 == TotalKey then Some(Text(parts.1))
      else None
  }

  /** The total's key is none of the keys the segment loop dispatches on. */
  lemma TotalKeyDistinct()
    ensures TotalKey != "Skills" && TotalKey != "Languages" && TotalKey != "Companies" && TotalKey != "Experience"
  {
  }

  /**
   * Storing a field sets the total only for an Experience value, to the sum
   * of its entries' years, or for the total's own key, to the text given.
   */
  lemma StoreFieldTotal(d: Profile, key: string, value: string, parseReal: RealParser)
    requires StoreField(d, key, value, parseReal).Ok?
    ensures Get(StoreField(d, key, value, parseReal).value, TotalKey)
            == if key == "Experience" then Some(Number(TotalYears(Split(value, ','), parseReal)))
               else if key == TotalKey then Some(Text(value))
               else Get(d, TotalKey)
  {
    if key == "Experience" {
      StoreExperienceTotal(d, value, parseReal);
    } else if key == TotalKey {
      StoreTotalKey(d, value, parseReal);
    } else {
      StoreOtherTotal(d, key, value, parseReal);
    }
  }

  /** A segment keyed with the total itself stores its text like any other key. */
  lemma StoreTotalKey(d: Profile, value: string, parseReal: RealParser)
    ensures StoreField(d, TotalKey, value, parseReal) == Ok(Put(d, TotalKey, Text(value)))
  {
    TotalKeyDistinct();
  }

  /** Any other key leaves the total alone. */
  lemma StoreOtherTotal(d: Profile, key: string, value: string, parseReal: RealParser)
    requires key != "Experience" && key != TotalKey
    requires StoreField(d, key, value, parseReal).Ok?
    ensures Get(StoreField(d, key, value, parseReal).value, TotalKey) == Get(d, TotalKey)
  {
    TotalKeyDistinct();
    FieldKeys();
  }

  /** A segment sets the total as TotalStored says when it sets it at all, and otherwise leaves it alone. */
  lemma SegmentTotal(d: Profile, line: string, parseReal: RealParser)
    requires ParseSegment(d, line, parseReal).Ok?
    ensures Get(ParseSegment(d, line, parseReal).value, TotalKey)
            == if SetsTotal(line) then TotalStored(line, parseReal) else Get(d, TotalKey)
  {
    var parts := SegmentParts(line);
    if parts.Some? {
      SegmentStep(d, line, parseReal);
      StoreFieldTotal(d, parts.value.0, parts.value.1, parseReal);
    }
  }

  lemma {:induction false} TotalFrom(d: Profile, lines: seq<string>, parseReal: RealParser)
    requires ParseLines(d, lines, parseReal).Ok?
    ensures Get(ParseLines(d, lines, parseReal).value, TotalKey)
            == match LastTotalSegment(lines)
               case None => Get(d, TotalKey)
               case Some(seg) => TotalStored(seg, parseReal)
    decreases |lines|
  {
    if lines != [] {
      LinesStep(d, lines, parseReal);
      var d' := ParseSegment(d, lines[0], parseReal).value;
      TotalFrom(d', lines[1..], parseReal);
      SegmentTotal(d, lines[0], parseReal);
    }
  }

  /**
   * "Total Years of Experience" in the parsed dict is set by the LAST segment
   * keyed "Experience" or keyed with the total itself: the sum of the years of
   * every entry of that Experience value, or the text given. It is absent
   * when no segment sets it.
   */
  lemma TotalOfResponse(response: string, parseReal: RealParser)
    requires ParseResponse(response, parseReal).Ok?
    ensures Get(ParseResponse(response, parseReal).value, TotalKey)
            == match LastTotalSegment(Split(response, ';'))
               case None => None
               case Some(seg) => TotalStored(seg, parseReal)
  {
    TotalFrom([], Split(response, ';'), parseReal);
  }

  /**
   * A well-formed entry "name:years" yields the stripped name and float() of
   * the years text stripped of "'{} ", or 0.0 where float() raises.
   */
  lemma ExperienceEntryOf(name: string, years: string, parseReal: RealParser)
    requires ':' !in name && ':' !in years
    ensures ExperienceEntry(name + [':'] + years, parseReal)
            == Ok((Strip(name, Whitespace), parseReal(Strip(years, YearsArtifacts)).GetOr(0.0)))
  {
    assert Join([name, years], [':']) == name + [':'] + years;
    SplitJoin([name, years], ':');
  }

  /** Two entries for the same role: the dict keeps only the second one's years. */
  lemma RepeatedRoleDict(e1: string, e2: string, role: string, y1: real, y2: real, parseReal: RealParser)
    requires ExperienceEntry(e1, parseReal) == Ok((role, y1))
    requires ExperienceEntry(e2, parseReal) == Ok((role, y2))
    ensures ParseExperience([], [e1, e2], parseReal) == Ok([(role, Number(y2))])
  {
    var entries := [e1, e2];
    assert entries[0] == e1 && entries[1..] == [e2];
    ExperienceStep([], entries, parseReal);
    PutNew([], role, Number(y1));
    assert [] + [(role, Number(y1))] == [(role, Number(y1))];
    ExperienceStep([(role, Number(y1))], [e2], parseReal);
    PutOnly(role, Number(y1), Number(y2));
    assert [e2][1..] == [];
  }

  /** Two entries add up their years, whatever their roles. */
  lemma TwoEntriesTotal(e1: string, e2: string, parseReal: RealParser)
    ensures TotalYears([e1, e2], parseReal) == EntryYears(e1, parseReal) + EntryYears(e2, parseReal)
  {
    var entries := [e1, e2];
    assert entries[..1] == [e1] && [e1][..0] == [];
    TotalYearsStep(entries, 1, parseReal);
    TotalYearsStep(entries, 0, parseReal);
    assert entries[..2] == entries;
  }

  /** Two ','-free entries joined by ',' split back into the two. */
  lemma SplitTwo(e1: string, e2: string)
    requires ',' !in e1 && ',' !in e2
    ensures Split(e1 + [','] + e2, ',') == [e1, e2]
  {
    SplitJoin([e1, e2], ',');
  }

  /**
   * "role:y1,role:y2" keeps the role once, with the second entry's years,
   * yet the total adds the years of both entries: once a role repeats, the
   * total need not be the sum of the dict's values.
   */
  lemma DuplicateRoleCountsTwice(role: string, y1: string, y2: string, parseReal: RealParser)
    requires ':' !in role && ',' !in role && IsStripped(role, Whitespace)
    requires ':' !in y1 && ',' !in y1 && IsStripped(y1, YearsArtifacts)
    requires ':' !in y2 && ',' !in y2 && IsStripped(y2, YearsArtifacts)
    ensures var e1, e2 := role + [':'] + y1, role + [':'] + y2;
            var entries := Split(e1 + [','] + e2, ',');
            && ParseExperience([], entries, parseReal) == Ok([(role, Number(parseReal(y2).GetOr(0.0)))])
            && TotalYears(entries, parseReal) == parseReal(y1).GetOr(0.0) + parseReal(y2).GetOr(0.0)
  {
    var e1, e2 := role + [':'] + y1, role + [':'] + y2;
    SplitTwo(e1, e2);
    var years1, years2 := parseReal(y1).GetOr(0.0), parseReal(y2).GetOr(0.0);
    ExperienceEntryOf(role, y1, parseReal);
    ExperienceEntryOf(role, y2, parseReal);
    assert EntryYears(e1, parseReal) == years1 && EntryYears(e2, parseReal) == years2;
    RepeatedRoleDict(e1, e2, role, years1, years2, parseReal);
    TwoEntriesTotal(e1, e2, parseReal);
  }
}
