/**
  The browser's local storage as the application uses it: string keys built
  from a fixed prefix and a candidate id, and JSON documents as values. A
  value is kept as the document that was stored; `Malformed` stands for text
  that `JSON.parse` rejects.
 */
module Storage {
  import opened Records

  datatype Stored =
    | ProgressJson(currentScore: int, timestamp: int)
    | EnhancementsJson(fitmentScore: int, summary: string, enhancedResume: Option<Resume>, timestamp: int)
    | ResumeJson(resume: Resume)
    | Malformed(raw: string)

  /** `if (localStorage.getItem(key))`: only the empty string is falsy among stored texts. */
  predicate Truthy(v: Stored) {
    v != Malformed("")
  }

  /** The entry for `key` when it is present and non-empty. */
  function GetTruthy(items: map<string, Stored>, key: string): (r: Option<Stored>)
    ensures r.Some? <==> key in items && Truthy(items[key])
    ensures r.Some? ==> r.value == items[key]
  {
    if key in items && Truthy(items[key]) then Some(items[key]) else None
  }

  const ProgressPrefix: string := "fitment_progress_"
  const EnhancedResumePrefix: string := "enhanced_resume_"
  const EnhancementsPrefix: string := "resume_enhancements_"

  function ProgressKey(id: string): string { ProgressPrefix + id }
  function EnhancedResumeKey(id: string): string { EnhancedResumePrefix + id }
  function EnhancementsKey(id: string): string { EnhancementsPrefix + id }

  /** Keys of one family determine the id, and the three families never share a key. */
  lemma KeysDistinct(a: string, b: string)
    ensures ProgressKey(a) == ProgressKey(b) ==> a == b
    ensures EnhancedResumeKey(a) == EnhancedResumeKey(b) ==> a == b
    ensures EnhancementsKey(a) == EnhancementsKey(b) ==> a == b
    ensures ProgressKey(a) != EnhancedResumeKey(b)
    ensures ProgressKey(a) != EnhancementsKey(b)
    ensures EnhancedResumeKey(a) != EnhancementsKey(b)
  {
    assert ProgressKey(a)[|ProgressPrefix|..] == a && ProgressKey(b)[|ProgressPrefix|..] == b;
    assert EnhancedResumeKey(a)[|EnhancedResumePrefix|..] == a;
    assert EnhancedResumeKey(b)[|EnhancedResumePrefix|..] == b;
    assert EnhancementsKey(a)[|EnhancementsPrefix|..] == a && EnhancementsKey(b)[|EnhancementsPrefix|..] == b;
    assert ProgressKey(a)[0] == 'f' && EnhancedResumeKey(b)[0] == 'e' && EnhancementsKey(b)[0] == 'r';
    assert EnhancedResumeKey(a)[0] == 'e';
  }

  /** The storage area shared by every view of the page. */
  class LocalStorage {
    var items: map<string, Stored>

    constructor (initial: map<string, Stored>)
      ensures items == initial
    {
      items := initial;
    }

    /** `localStorage.setItem(key, value)`. */
    method SetItem(key: string, value: Stored)
      modifies this
      ensures items == old(items)[key := value]
    {
      items := items[key := value];
    }
  }
}
