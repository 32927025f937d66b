// How a job id becomes a file name, and how a directory scan turns a file name back into an id.
module JobNaming {

  predicate SafeChar(c: char) {
    'A' <= c <= 'Z' || 'a' <= c <= 'z' || '0' <= c <= '9' || c == '_' || c == '.' || c == '-'
  }

  predicate AllSafe(s: string) {
    forall i | 0 <= i < |s| :: SafeChar(s[i])
  }

  const MAX_FILENAME_LEN := 200
  const DIGEST_LEN := 12

  // The first twelve hexadecimal digits of a hash: only their number and their alphabet matter.
  type Digest = f: string -> string | forall id :: |f(id)| == DIGEST_LEN && AllSafe(f(id))
    witness (id: string) => "000000000000"

  function Clean(id: string): (s: string)
    ensures |s| == |id| && AllSafe(s)
    ensures forall i | 0 <= i < |id| :: s[i] == if SafeChar(id[i]) then id[i] else '_'
  {
    seq(|id|, i requires 0 <= i < |id| => if SafeChar(id[i]) then id[i] else '_')
  }

  function FileStem(digest: Digest, id: string): string {
    var clean := Clean(id);
    if |clean| <= MAX_FILENAME_LEN then clean
    else clean[..MAX_FILENAME_LEN - DIGEST_LEN - 1] + "_" + digest(id)
  }

  const SUFFIX := ".json"

  function FileName(digest: Digest, id: string): string {
    FileStem(digest, id) + SUFFIX
  }

  function LastDot(s: string): (i: int)
    ensures -1 <= i < |s|
    ensures i >= 0 ==> s[i] == '.'
    ensures forall j | i < j < |s| :: s[j] != '.'
  {
    if s == "" then -1
    else if s[|s| - 1] == '.' then |s| - 1
    else LastDot(s[..|s| - 1])
  }

  /** The stem of a path: the name up to its last dot, or all of it when that dot opens or ends the name. */
  function PathStem(name: string): string {
    var i := LastDot(name);
    if 0 < i < |name| - 1 then name[..i] else name
  }

  /** A dot that opens or ends a name is part of its stem. */
  lemma DotsAtTheEndsBelongToTheStem(s: string)
    requires forall i | 0 <= i < |s| :: s[i] != '.'
    ensures PathStem("." + s) == "." + s && PathStem(s + ".") == s + "." && PathStem(s) == s
  {
    assert ("." + s)[0] == '.' && (s + ".")[|s|] == '.';
    assert forall i | 0 < i < |"." + s| :: ("." + s)[i] == s[i - 1];
  }

  /** Separators, blanks and control characters are not safe; the ends of the safe ranges are. */
  lemma SafeCharactersAreAFewRanges()
    ensures SafeChar('A') && SafeChar('Z') && SafeChar('a') && SafeChar('z') && SafeChar('0') && SafeChar('9')
    ensures SafeChar('_') && SafeChar('.') && SafeChar('-')
    ensures !SafeChar('@') && !SafeChar('[') && !SafeChar('`') && !SafeChar('{') && !SafeChar('/') && !SafeChar(':')
    ensures !SafeChar('\\') && !SafeChar(' ') && !SafeChar('\0')
  {}

  /** Stems hold only safe characters, never exceed the cap, and are empty for the empty id alone. */
  lemma StemIsSafe(digest: Digest, id: string)
    ensures AllSafe(FileStem(digest, id)) && |FileStem(digest, id)| <= MAX_FILENAME_LEN
    ensures FileStem(digest, id) == "" <==> id == ""
  {
    var d := digest(id);
    assert |d| == DIGEST_LEN && AllSafe(d);
  }

  lemma SafeShortIdIsItsOwnStem(digest: Digest, id: string)
    requires AllSafe(id) && |id| <= MAX_FILENAME_LEN
    ensures FileStem(digest, id) == id
  {
    assert Clean(id) == id;
  }

  lemma StemIsIdempotent(digest: Digest, id: string)
    ensures FileStem(digest, FileStem(digest, id)) == FileStem(digest, id)
  {
    StemIsSafe(digest, id);
    SafeShortIdIsItsOwnStem(digest, FileStem(digest, id));
  }

  lemma SuffixIsStripped(stem: string)
    ensures PathStem(stem + SUFFIX) == if stem == "" then SUFFIX else stem
  {
    var name := stem + SUFFIX;
    assert name[|stem|] == '.';
    forall j | |stem| < j < |name|
      ensures name[j] != '.'
    {
      assert name[j] == SUFFIX[j - |stem|];
    }
    assert LastDot(name) == |stem|;
    assert name[..|stem|] == stem;
  }

  /** A directory scan reads every record back from its own file, except the one of the empty id. */
  lemma ScanReadsItsOwnFile(digest: Digest, id: string)
    ensures FileName(digest, PathStem(FileName(digest, id))) == FileName(digest, id) <==> id != ""
  {
    StemIsSafe(digest, id);
    SuffixIsStripped(FileStem(digest, id));
    if id == "" {
      assert AllSafe(SUFFIX);
      SafeShortIdIsItsOwnStem(digest, SUFFIX);
    } else {
      StemIsIdempotent(digest, id);
    }
  }

  predicate IsListed(name: string) {
    |name| >= |SUFFIX| && name[|name| - |SUFFIX|..] == SUFFIX
  }

  /** The file a scan visits for a listed name. */
  function ScanTarget(digest: Digest, name: string): string {
    FileName(digest, PathStem(name))
  }

  lemma ScanTargetIsNamed(digest: Digest, name: string)
    requires IsListed(name)
    ensures ScanTarget(digest, name) != SUFFIX
  {
    StemIsSafe(digest, PathStem(name));
    assert |PathStem(name)| > 0;
    assert |ScanTarget(digest, name)| > |SUFFIX|;
  }

  lemma ScanTargetOfItsOwn(digest: Digest, id: string)
    ensures IsListed(FileName(digest, id))
    ensures FileName(digest, id) != SUFFIX ==> ScanTarget(digest, FileName(digest, id)) == FileName(digest, id)
  {
    StemIsSafe(digest, id);
    ScanReadsItsOwnFile(digest, id);
    assert FileName(digest, id)[|FileStem(digest, id)|..] == SUFFIX;
  }

  /** Ids that are already safe and short, as the orchestrator generates them, never share a file. */
  lemma GeneratedIdsHaveTheirOwnFiles(digest: Digest, a: string, b: string)
    requires AllSafe(a) && |a| <= MAX_FILENAME_LEN && AllSafe(b) && |b| <= MAX_FILENAME_LEN
    ensures FileName(digest, a) == FileName(digest, b) <==> a == b
  {
    SafeShortIdIsItsOwnStem(digest, a);
    SafeShortIdIsItsOwnStem(digest, b);
    assert (a + SUFFIX)[..|a + SUFFIX| - |SUFFIX|] == a && (b + SUFFIX)[..|b + SUFFIX| - |SUFFIX|] == b;
  }

  /** Any other short id shares the file of the safe id it is cleaned to. */
  lemma UnsafeIdSharesAFile(digest: Digest, id: string)
    requires !AllSafe(id) && |id| <= MAX_FILENAME_LEN
    ensures Clean(id) != id && FileName(digest, Clean(id)) == FileName(digest, id)
  {
    var i :| 0 <= i < |id| && !SafeChar(id[i]);
    assert Clean(id)[i] == '_' != id[i];
    SafeShortIdIsItsOwnStem(digest, Clean(id));
  }
}
