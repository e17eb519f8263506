/**
 * The destination file name chosen by `download`: the caller's `fileName`
 * when given, otherwise the last path segment of the URL with every
 * character of the regular-expression class ``[#%&{}\\<>*?/$!'":@+`|=]``
 * replaced by `-`.
 */
module FileNames {
  import opened Wrappers

  const REPLACEMENT: char := '-'

  /** The 21 characters of the replaced class. */
  predicate IsForbidden(c: char) {
    c in {'#', '%', '&', '{', '}', '\\', '<', '>', '*', '?', '/', '$', '!', '\'', '\"', ':', '@', '+', '`', '|', '='}
  }

  predicate IsClean(s: string) {
    forall i :: 0 <= i < |s| ==> !IsForbidden(s[i])
  }

  function SanitizeChar(c: char): char {
    if IsForbidden(c) then REPLACEMENT else c
  }

  /**
   * The regular-expression replacement, one character at a time: the length
   * is kept, forbidden characters become `-` and all others stay.
   */
  function SanitizeSegment(segment: string): (r: string)
    ensures |r| == |segment|
    ensures forall i :: 0 <= i < |segment| ==>
      (IsForbidden(segment[i]) ==> r[i] == REPLACEMENT) && (!IsForbidden(segment[i]) ==> r[i] == segment[i])
    ensures IsClean(r)
  {
    if segment == [] then [] else [SanitizeChar(segment[0])] + SanitizeSegment(segment[1..])
  }

  /**
   * `(fileName ?: lastPathSegment?.replace(...)).toString()`: when both are
   * null, Kotlin's `toString()` on null yields the text "null".
   */
  function DestinationName(fileName: Option<string>, lastPathSegment: Option<string>): (name: string)
    ensures fileName.Some? ==> name == fileName.value
    ensures fileName.None? && lastPathSegment.Some? ==>
      |name| == |lastPathSegment.value| && IsClean(name) &&
      forall i :: 0 <= i < |name| ==>
        (IsForbidden(lastPathSegment.value[i]) ==> name[i] == REPLACEMENT) &&
        (!IsForbidden(lastPathSegment.value[i]) ==> name[i] == lastPathSegment.value[i])
    ensures fileName.None? && lastPathSegment.None? ==> name == "null"
  {
    match fileName
    case Some(given) => given
    case None =>
      match lastPathSegment
      case Some(segment) => SanitizeSegment(segment)
      case None => "null"
  }

  /** Sanitising twice is sanitising once. */
  lemma SanitizeIdempotent(segment: string)
    ensures SanitizeSegment(SanitizeSegment(segment)) == SanitizeSegment(segment)
  {
  }

  /** A segment is left unchanged exactly when it holds no forbidden character. */
  lemma CleanIsFixedPoint(segment: string)
    ensures SanitizeSegment(segment) == segment <==> IsClean(segment)
  {
  }
}
