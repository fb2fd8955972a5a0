/** The cache key namespace shared by the caching registrar and the client:
    `<subject>:<version>`, `<subject>:latest` and `id:<id>`, and the
    `<subject>:` prefix swept on register and delete. */
module CacheKeys {
  import opened Values
  import opened Text

  /** The prefix that every key of a subject starts with. */
  function SubjectPrefix(subject: string): (prefix: string)
    ensures prefix != "" && prefix[|prefix| - 1] == ':'
  {
    subject + ":"
  }

  function SubjectVersionKey(subject: string, version: int): (key: string)
    ensures SubjectPrefix(subject) <= key
  {
    subject + ":" + IntToString(version)
  }

  /** The most-recent alias written on registration. */
  function LatestKey(subject: string): (key: string)
    ensures SubjectPrefix(subject) <= key
  {
    subject + ":latest"
  }

  function IdKey(id: int): (key: string)
    ensures "id:" <= key && |key| > 3
  {
    "id:" + IntToString(id)
  }

  /** `$"id:{registered.Id}"` with a nullable id: a null id renders as nothing. */
  function NullableIdKey(id: Option<int>): (key: string)
    ensures id.Some? ==> key == IdKey(id.value)
    ensures id.None? ==> key == "id:"
  {
    "id:" + (if id.Some? then IntToString(id.value) else "")
  }

  lemma NoColonInInt(i: int)
    ensures forall k :: 0 <= k < |IntToString(i)| ==> IntToString(i)[k] != ':'
  {
  }

  /** A version key determines its subject and version: the digits after the
      last ':' hold no ':'. */
  lemma {:induction false} SubjectVersionKeyInjective(s1: string, v1: int, s2: string, v2: int)
    requires SubjectVersionKey(s1, v1) == SubjectVersionKey(s2, v2)
    ensures s1 == s2 && v1 == v2
  {
    var key := SubjectVersionKey(s1, v1);
    var d1, d2 := IntToString(v1), IntToString(v2);
    NoColonInInt(v1);
    NoColonInInt(v2);
    // the last ':' of the key sits right after the subject, for both readings
    assert key[|s1|] == ':' && key[|s2|] == ':';
    assert forall k :: |s1| < k < |key| ==> key[k] == d1[k - |s1| - 1];
    assert forall k :: |s2| < k < |key| ==> key[k] == d2[k - |s2| - 1];
    assert |s1| == |s2|;
    assert s1 == key[..|s1|] == s2;
    assert d1 == key[|s1| + 1..] == d2;
    IntToStringInjective(v1, v2);
  }

  /** The latest alias of a subject never coincides with a version key of any
      subject, so the two kinds of entry cannot overwrite each other: one ends
      in a letter, the other in a digit. */
  lemma {:induction false} LatestKeyIsNoVersionKey(s: string, s': string, v: int)
    ensures LatestKey(s) != SubjectVersionKey(s', v)
  {
    var latest, version := LatestKey(s), SubjectVersionKey(s', v);
    var d := IntToString(v);
    assert latest[|latest| - 1] == 't';
    assert version[|version| - 1] == d[|d| - 1];
  }

  /** An id key lies in a subject's namespace exactly when the subject is
      "id", so the register and delete sweeps leave id keys alone for every
      other subject. */
  lemma {:induction false} IdKeyInSubjectNamespace(subject: string, id: int)
    ensures SubjectPrefix(subject) <= IdKey(id) <==> subject == "id"
  {
    var key := IdKey(id);
    var d := IntToString(id);
    NoColonInInt(id);
    assert forall k :: 3 <= k < |key| ==> key[k] == d[k - 3];
    if SubjectPrefix(subject) <= key {
      assert key[|subject|] == ':';
      assert subject == key[..2] == "id";
    }
  }
}
