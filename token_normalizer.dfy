/**
 * clean_dict_keys (fsd/app.py): strips the quote and brace residue that the
 * language model leaves around keys and string values of a parsed mapping.
 */
module TokenNormalizer {
  import opened Wrappers
  import opened PyString
  import opened PyDict

  /** The dynamically typed values that a parsed response holds. */
  datatype Value =
    | Text(text: string)                      // str
    | Number(number: real)                    // float
    | List(items: seq<string>)                // list of str
    | Mapping(entries: Dict<string, Value>)   // dict

  /** The characters of key.strip("'{}"). */
  const Artifacts: set<char> := {'\'', '{', '}'}

  /** Strings are stripped of Artifacts; values of every other type are left as they are. */
  function CleanValue(v: Value): Value {
    if v.Text? then Text(Strip(v.text, Artifacts)) else v
  }

  predicate IsCleanValue(v: Value) {
    !v.Text? || IsStripped(v.text, Artifacts)
  }

  /** Keys are unique, and no key and no string value begins or ends with ', { or }. */
  predicate IsClean(d: Dict<string, Value>) {
    && Valid(d)
    && forall i :: 0 <= i < |d| ==> IsStripped(d[i].0, Artifacts) && IsCleanValue(d[i].1)
  }

  /**
   * The dict that clean_dict_keys builds: the entries of d in order, each
   * assigned under its cleaned key, so that keys which clean to the same
   * string merge, at the place of the first and with the value of the last.
   */
  function CleanDict(d: Dict<string, Value>): (r: Dict<string, Value>)
    ensures IsClean(r)
    ensures |r| <= |d|
  {
    if d == [] then []
    else
      var (k, v) := d[|d| - 1];
      Put(CleanDict(d[..|d| - 1]), Strip(k, Artifacts), CleanValue(v))
  }

  /** clean_dict_keys, as the loop that fills cleaned_dict. */
  method CleanDictKeys(input: Dict<string, Value>) returns (cleaned: Dict<string, Value>)
    ensures cleaned == CleanDict(input)
  {
    cleaned := [];
    for i := 0 to |input|
      invariant cleaned == CleanDict(input[..i])
    {
      var (key, value) := input[i];
      var cleanedKey := Strip(key, Artifacts);
      var cleanedValue;
      if value.Text? {
        cleanedValue := Text(Strip(value.text, Artifacts));
      } else {
        cleanedValue := value;
      }
      assert input[..i + 1][..i] == input[..i];
      cleaned := Put(cleaned, cleanedKey, cleanedValue);
    }
    assert input[..|input|] == input;
  }

  /** The cleaned keys of d, one per entry, in order. */
  function CleanedKeys(d: Dict<string, Value>): (ks: seq<string>)
  {
    seq(|d|, i requires 0 <= i < |d| => Strip(d[i].0, Artifacts))
  }

  /** The cleaned value of the last entry of d whose key cleans to k. */
  function LastMatch(d: Dict<string, Value>, k: string): Option<Value>
  {
    if d == [] then None
    else if Strip(d[|d| - 1].0, Artifacts) == k then Some(CleanValue(d[|d| - 1].1))
    else LastMatch(d[..|d| - 1], k)
  }

  /** The output keys are the cleaned input keys, in the order of their first occurrence. */
  lemma {:induction false} CleanDictKeyOrder(d: Dict<string, Value>)
    ensures Keys(CleanDict(d)) == Dedup(CleanedKeys(d))
  {
    if d != [] {
      var front := d[..|d| - 1];
      CleanDictKeyOrder(front);
      var ck := CleanedKeys(d);
      assert ck[..|d| - 1] == CleanedKeys(front);
      assert ck[|d| - 1] == Strip(d[|d| - 1].0, Artifacts);
    }
  }

  /**
   * Each output key holds the cleaned value of the LAST input entry whose key
   * cleans to it (so non-string values come through unchanged), and a key no
   * input entry cleans to is absent.
   */
  lemma {:induction false} CleanDictLookup(d: Dict<string, Value>, k: string)
    ensures Get(CleanDict(d), k) == LastMatch(d, k)
  {
    if d != [] {
      CleanDictLookup(d[..|d| - 1], k);
    }
  }

  /** Dropping the last entry of a clean mapping leaves a clean mapping without the last key. */
  lemma CleanFront(d: Dict<string, Value>)
    requires IsClean(d) && d != []
    ensures IsClean(d[..|d| - 1])
    ensures d[|d| - 1].0 !in Keys(d[..|d| - 1])
  {
    var front := d[..|d| - 1];
    assert Keys(front) == Keys(d)[..|d| - 1];
    assert Keys(d)[|d| - 1] == d[|d| - 1].0;
  }

  /** A mapping that is already clean is its own cleaning. */
  lemma {:induction false} CleanDictOfClean(d: Dict<string, Value>)
    requires IsClean(d)
    ensures CleanDict(d) == d
  {
    if d != [] {
      var front, last := d[..|d| - 1], d[|d| - 1];
      assert d == front + [last];
      CleanFront(d);
      CleanDictOfClean(front);
      assert Strip(last.0, Artifacts) == last.0 && CleanValue(last.1) == last.1;
      PutNew(front, last.0, last.1);
    }
  }

  /** clean_dict_keys is idempotent. */
  lemma CleanDictIdempotent(d: Dict<string, Value>)
    ensures CleanDict(CleanDict(d)) == CleanDict(d)
  {
    CleanDictOfClean(CleanDict(d));
  }

  /** Braces around a key that does not start or end with an artifact are stripped away; "{}" strips to "". */
  lemma StripBraces(k: string)
    requires IsStripped(k, Artifacts)
    ensures Strip(['{'] + k + ['}'], Artifacts) == k
  {
    if k == [] {
      assert ['{'] + k + ['}'] == ['{', '}'];
      return;
    }
    var braced := ['{'] + k + ['}'];
    assert braced[1..] == k + ['}'];
    assert StripLeft(braced, Artifacts) == StripLeft(k + ['}'], Artifacts);
    assert StripLeft(k + ['}'], Artifacts) == k + ['}'];
    assert (k + ['}'])[..|k|] == k;
    assert StripRight(k + ['}'], Artifacts) == StripRight(k, Artifacts);
  }

  /** Cleaning one more entry assigns its cleaned value under its cleaned key. */
  lemma CleanDictSnoc(d: Dict<string, Value>, k: string, v: Value)
    ensures CleanDict(d + [(k, v)]) == Put(CleanDict(d), Strip(k, Artifacts), CleanValue(v))
  {
    assert (d + [(k, v)])[..|d|] == d;
  }

  /** A key k and the key "{k}" merge into one entry k, which holds the later value. */
  lemma CleanDictMergesKeys(k: string, v1: Value, v2: Value)
    requires IsStripped(k, Artifacts)
    ensures CleanDict([(k, v1), (['{'] + k + ['}'], v2)]) == [(k, CleanValue(v2))]
  {
    var braced := ['{'] + k + ['}'];
    assert [(k, v1), (braced, v2)] == [] + [(k, v1)] + [(braced, v2)];
    CleanDictSnoc([], k, v1);
    assert Strip(k, Artifacts) == k;
    PutNew([], k, CleanValue(v1));
    CleanDictSnoc([(k, v1)], braced, v2);
    StripBraces(k);
    PutOnly(k, CleanValue(v1), CleanValue(v2));
  }
}
