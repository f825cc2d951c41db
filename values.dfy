/** The dynamically typed dictionaries that flow between the pipeline's stages:
    JSON values, `dict.get`, Python truthiness, and the mutable payload dict. */
module Values {

  datatype Option<T> = None | Some(value: T)

  /** A JSON value as `json.loads` produces it (nested objects are not modelled). */
  datatype Value = Null | Bool(b: bool) | Num(x: real) | Str(s: string) | Arr(items: seq<Value>)

  /** A field name of a payload dict. The names the pipeline reads or writes are
      constructors (so that two of them are told apart by their tag); every other
      name a decoded object may carry is `Other`. */
  datatype Key =
    | Improved | Explanation | WhyItWorks | RelevanceImprovements
    | SelfCritique | IsSupportedByResume | Issues | EvidenceSnippets
    | Original | RelevanceScore | MatchedJdSnippet
    | Other(name: string)

  /** The JSON name of a field. */
  function Name(k: Key): (n: string)
    ensures k.Other? ==> n == k.name
  {
    match k
    case Improved => "improved"
    case Explanation => "explanation"
    case WhyItWorks => "why_it_works"
    case RelevanceImprovements => "relevance_improvements"
    case SelfCritique => "self_critique"
    case IsSupportedByResume => "is_supported_by_resume"
    case Issues => "issues"
    case EvidenceSnippets => "evidence_snippets"
    case Original => "original"
    case RelevanceScore => "relevance_score"
    case MatchedJdSnippet => "matched_jd_snippet"
    case Other(n) => n
  }

  /** The key a decoder gives a JSON name: the listed constructor when there is one,
      otherwise `Other`. */
  function KeyOf(n: string): (k: Key)
    ensures Name(k) == n
  {
    if n == "improved" then Improved
    else if n == "explanation" then Explanation
    else if n == "why_it_works" then WhyItWorks
    else if n == "relevance_improvements" then RelevanceImprovements
    else if n == "self_critique" then SelfCritique
    else if n == "is_supported_by_resume" then IsSupportedByResume
    else if n == "issues" then Issues
    else if n == "evidence_snippets" then EvidenceSnippets
    else if n == "original" then Original
    else if n == "relevance_score" then RelevanceScore
    else if n == "matched_jd_snippet" then MatchedJdSnippet
    else Other(n)
  }

  /** A key as a decoder produces it: an `Other` never carries a listed name. */
  predicate Canonical(k: Key) {
    k.Other? ==> KeyOf(k.name) == k
  }

  /** Every key a decoder produces is canonical, and a canonical key is recovered
      from its name. */
  lemma KeyOfName(k: Key, n: string)
    ensures Canonical(KeyOf(n))
    ensures Canonical(k) ==> KeyOf(Name(k)) == k
  {
  }

  /** On canonical keys `Name` is one-to-one, so two spellings of one field cannot arise. */
  lemma NameInjective(k1: Key, k2: Key)
    requires Canonical(k1) && Canonical(k2) && Name(k1) == Name(k2)
    ensures k1 == k2
  {
    KeyOfName(k1, "");
    KeyOfName(k2, "");
  }

  /** A decoded JSON object, or a payload dict built in code. */
  type Dict = map<Key, Value>

  /** `d.get(k, default)` */
  function Get(d: Dict, k: Key, default: Value): (v: Value)
    ensures k in d ==> v == d[k]
    ensures k !in d ==> v == default
  {
    if k in d then d[k] else default
  }

  /** Python's `bool(v)`. */
  predicate Truthy(v: Value) {
    match v
    case Null => false
    case Bool(b) => b
    case Num(x) => x != 0.0
    case Str(s) => s != ""
    case Arr(items) => items != []
  }

  /** A list of strings as JSON. */
  function StrArr(xs: seq<string>): (v: Value)
    ensures v.Arr? && |v.items| == |xs|
    ensures forall i :: 0 <= i < |xs| ==> v.items[i] == Str(xs[i])
  {
    Arr(seq(|xs|, i requires 0 <= i < |xs| => Str(xs[i])))
  }

  /** The empty list of strings is the empty JSON array. */
  lemma StrArrEmpty()
    ensures StrArr([]) == Arr([])
  {
  }

  /** A Python dict that the pipeline mutates in place (`d[k] = v`, `d.update(u)`). */
  class Payload {
    var entries: Dict

    constructor (d: Dict)
      ensures entries == d
    {
      entries := d;
    }

    /** `self[k] = v` */
    method Set(k: Key, v: Value)
      modifies this
      ensures entries == old(entries)[k := v]
    {
      entries := entries[k := v];
    }

    /** `self.update(u)`: the keys of `u` take `u`'s values, every other key is kept. */
    method Update(u: Dict)
      modifies this
      ensures entries == old(entries) + u
      ensures forall k :: k in old(entries) && k !in u ==> k in entries && entries[k] == old(entries)[k]
    {
      entries := entries + u;
    }
  }

  /** The contents of a list of payload dicts. */
  function Contents(ps: seq<Payload>): (ds: seq<Dict>)
    reads set p | p in ps
    ensures |ds| == |ps|
    ensures forall i :: 0 <= i < |ps| ==> ds[i] == ps[i].entries
  {
    seq(|ps|, i reads set p | p in ps requires 0 <= i < |ps| => ps[i].entries)
  }
}
