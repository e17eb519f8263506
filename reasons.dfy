/**
 * `convertReasonString`: the text reported for the reason column of a failed
 * or paused download. Codes are the reason values of Android's
 * `DownloadManager`; the hexadecimal code inside each message repeats them.
 */
module Reasons {
  import opened Wrappers
  import opened Decimal

  // Reasons for STATUS_PAUSED
  const PAUSED_WAITING_TO_RETRY: int := 1
  const PAUSED_WAITING_FOR_NETWORK: int := 2
  const PAUSED_QUEUED_FOR_WIFI: int := 3
  const PAUSED_UNKNOWN: int := 4
  // Reasons for STATUS_FAILED
  const ERROR_UNKNOWN: int := 1000
  const ERROR_FILE_ERROR: int := 1001
  const ERROR_UNHANDLED_HTTP_CODE: int := 1002
  const ERROR_HTTP_DATA_ERROR: int := 1004
  const ERROR_TOO_MANY_REDIRECTS: int := 1005
  const ERROR_INSUFFICIENT_SPACE: int := 1006
  const ERROR_DEVICE_NOT_FOUND: int := 1007
  const ERROR_CANNOT_RESUME: int := 1008
  const ERROR_FILE_ALREADY_EXISTS: int := 1009

  const TAG_CANNOT_RESUME: string := "ANDROID_ERROR(0x000003f0)"
  const MSG_CANNOT_RESUME: string := TAG_CANNOT_RESUME + ": Some, possibly, transient error occurred but we can't resume the download."
  const TAG_DEVICE_NOT_FOUND: string := "ANDROID_ERROR(0x000003ef)"
  const MSG_DEVICE_NOT_FOUND: string := TAG_DEVICE_NOT_FOUND + ": No external storage device was found."
  const TAG_FILE_ALREADY_EXISTS: string := "ANDROID_ERROR(0x000003f1)"
  const MSG_FILE_ALREADY_EXISTS: string := TAG_FILE_ALREADY_EXISTS + ": The requested destination file already exists."
  const TAG_FILE_ERROR: string := "ANDROID_ERROR(0x000003e9)"
  const MSG_FILE_ERROR: string := TAG_FILE_ERROR + ": A storage issue arises which doesn't fit under any other error code."
  const TAG_HTTP_DATA_ERROR: string := "ANDROID_ERROR(0x000003ec)"
  const MSG_HTTP_DATA_ERROR: string := TAG_HTTP_DATA_ERROR + ": An error receiving or processing data occurred at the HTTP level"
  const TAG_INSUFFICIENT_SPACE: string := "ANDROID_ERROR(0x000003ee)"
  const MSG_INSUFFICIENT_SPACE: string := TAG_INSUFFICIENT_SPACE + ": There was insufficient storage space."
  const TAG_TOO_MANY_REDIRECTS: string := "ANDROID_ERROR(0x000003ed)"
  const MSG_TOO_MANY_REDIRECTS: string := TAG_TOO_MANY_REDIRECTS + ": There were too many redirects."
  const TAG_UNHANDLED_HTTP_CODE: string := "ANDROID_ERROR(0x000003ea)"
  const MSG_UNHANDLED_HTTP_CODE: string := TAG_UNHANDLED_HTTP_CODE + ": An HTTP code was received that download manager can't handle."
  const TAG_ERROR_UNKNOWN: string := "ANDROID_ERROR(0x000003e8)"
  const MSG_ERROR_UNKNOWN: string := TAG_ERROR_UNKNOWN + ": When the download has completed with an error that doesn't fit under any other error code."
  const TAG_QUEUED_FOR_WIFI: string := "ANDROID(0x00000003)"
  const MSG_QUEUED_FOR_WIFI: string := TAG_QUEUED_FOR_WIFI + ": The download exceeds a size limit for downloads over the mobile network and the download manager is waiting for a Wi-Fi connection to proceed."
  const TAG_PAUSED_UNKNOWN: string := "ANDROID(0x00000004)"
  const MSG_PAUSED_UNKNOWN: string := TAG_PAUSED_UNKNOWN + ": The download is paused for some other reason."
  const TAG_WAITING_FOR_NETWORK: string := "ANDROID(0x00000002)"
  const MSG_WAITING_FOR_NETWORK: string := TAG_WAITING_FOR_NETWORK + ": The download is waiting for network connectivity to proceed."
  const TAG_WAITING_TO_RETRY: string := "ANDROID(0x00000001)"
  const MSG_WAITING_TO_RETRY: string := TAG_WAITING_TO_RETRY + ": The download is paused because some network error occurred and the download manager is waiting before retrying the request."

  const HTTP_ERROR_PREFIX: string := "HTTP_ERROR("

  /** The thirteen codes that have a fixed message. */
  predicate IsKnownReason(r: int) {
    r in {ERROR_CANNOT_RESUME, ERROR_DEVICE_NOT_FOUND, ERROR_FILE_ALREADY_EXISTS, ERROR_FILE_ERROR,
          ERROR_HTTP_DATA_ERROR, ERROR_INSUFFICIENT_SPACE, ERROR_TOO_MANY_REDIRECTS,
          ERROR_UNHANDLED_HTTP_CODE, ERROR_UNKNOWN, PAUSED_QUEUED_FOR_WIFI, PAUSED_UNKNOWN,
          PAUSED_WAITING_FOR_NETWORK, PAUSED_WAITING_TO_RETRY}
  }

  predicate StartsWith(s: string, prefix: string) {
    |prefix| <= |s| && s[..|prefix|] == prefix
  }

  /**
   * A null reason stays null; a known code gets its fixed Android message;
   * any other code is reported as `HTTP_ERROR(<code>)`.
   */
  function ConvertReasonString(reason: Option<int>): (r: Option<string>)
    ensures r.Some? <==> reason.Some?
    ensures reason.Some? && IsKnownReason(reason.value) ==> StartsWith(r.value, "ANDROID")
    ensures reason.Some? && !IsKnownReason(reason.value) ==>
      StartsWith(r.value, HTTP_ERROR_PREFIX) && r.value[|r.value| - 1] == ')' &&
      ParseInt(r.value[|HTTP_ERROR_PREFIX|..|r.value| - 1]) == reason.value &&
      IsCanonical(r.value[|HTTP_ERROR_PREFIX|..|r.value| - 1])
  {
    match reason
    case None => None
    case Some(code) =>
      if code == ERROR_CANNOT_RESUME then Some(MSG_CANNOT_RESUME)
      else if code == ERROR_DEVICE_NOT_FOUND then Some(MSG_DEVICE_NOT_FOUND)
      else if code == ERROR_FILE_ALREADY_EXISTS then Some(MSG_FILE_ALREADY_EXISTS)
      else if code == ERROR_FILE_ERROR then Some(MSG_FILE_ERROR)
      else if code == ERROR_HTTP_DATA_ERROR then Some(MSG_HTTP_DATA_ERROR)
      else if code == ERROR_INSUFFICIENT_SPACE then Some(MSG_INSUFFICIENT_SPACE)
      else if code == ERROR_TOO_MANY_REDIRECTS then Some(MSG_TOO_MANY_REDIRECTS)
      else if code == ERROR_UNHANDLED_HTTP_CODE then Some(MSG_UNHANDLED_HTTP_CODE)
      else if code == ERROR_UNKNOWN then Some(MSG_ERROR_UNKNOWN)
      else if code == PAUSED_QUEUED_FOR_WIFI then Some(MSG_QUEUED_FOR_WIFI)
      else if code == PAUSED_UNKNOWN then Some(MSG_PAUSED_UNKNOWN)
      else if code == PAUSED_WAITING_FOR_NETWORK then Some(MSG_WAITING_FOR_NETWORK)
      else if code == PAUSED_WAITING_TO_RETRY then Some(MSG_WAITING_TO_RETRY)
      else
        var digits := IntToString(code);
        var msg := HTTP_ERROR_PREFIX + digits + ")";
        assert msg[|HTTP_ERROR_PREFIX|..|msg| - 1] == digits;
        ParseIntToString(code);
        Some(msg)
  }

  const ERROR_TAG_PREFIX: string := "ANDROID_ERROR("
  const PAUSED_TAG_PREFIX: string := "ANDROID("

  /**
   * Recovers the reason code from a reported message: the inverse of
   * `ConvertReasonString` on its range. A fixed message starts with a tag,
   * its group prefix followed by `0x`, eight hexadecimal digits and `)`; the
   * code is read from those digits.
   */
  function ReasonCodeOf(message: string): (code: Option<int>)
  {
    if StartsWith(message, ERROR_TAG_PREFIX) then TaggedCode(message, ERROR_TAG_PREFIX)
    else if StartsWith(message, PAUSED_TAG_PREFIX) then TaggedCode(message, PAUSED_TAG_PREFIX)
    else if |message| > |HTTP_ERROR_PREFIX| && StartsWith(message, HTTP_ERROR_PREFIX) && message[|message| - 1] == ')' then
      Some(ParseInt(message[|HTTP_ERROR_PREFIX|..|message| - 1]))
    else None
  }

  /** The code in the tag `group` + `0x` + eight hexadecimal digits + `)` at the head of `message`. */
  function TaggedCode(message: string, group: string): Option<int> {
    var start := |group| + 2;
    if |message| > start + 8 && message[|group|] == '0' && message[|group| + 1] == 'x' && message[start + 8] == ')' then
      Some(ParseHex(message[start..start + 8]))
    else None
  }

  function HexDigitValue(c: char): int {
    if '0' <= c <= '9' then (c as int) - ('0' as int)
    else if 'a' <= c <= 'f' then (c as int) - ('a' as int) + 10
    else 0
  }

  /** Value of a string of hexadecimal digits, most significant first. */
  function ParseHex(s: string): int
    decreases |s|
  {
    if s == [] then 0 else ParseHex(s[..|s| - 1]) * 16 + HexDigitValue(s[|s| - 1])
  }

  lemma {:induction false} ParseHexZeros(z: string)
    requires forall k :: 0 <= k < |z| ==> z[k] == '0'
    ensures ParseHex(z) == 0
    decreases |z|
  {
    if z != [] {
      ParseHexZeros(z[..|z| - 1]);
    }
  }

  /** Eight hexadecimal digits of which the first five are zeros. */
  lemma ParseHexLow(h: string)
    requires |h| == 8 && forall k :: 0 <= k < 5 ==> h[k] == '0'
    ensures ParseHex(h) == HexDigitValue(h[5]) * 256 + HexDigitValue(h[6]) * 16 + HexDigitValue(h[7])
  {
    ParseHexZeros(h[..5]);
    assert h[..6][..5] == h[..5];
    assert ParseHex(h[..6]) == HexDigitValue(h[5]);
    assert h[..7][..6] == h[..6];
    assert ParseHex(h[..7]) == HexDigitValue(h[5]) * 16 + HexDigitValue(h[6]);
    assert h[..7] == h[..|h| - 1];
  }

  /**
   * `tag` is `group`, `0x`, eight hexadecimal digits of which the first five
   * are zeros, and `)`; the digits spell `code`.
   */
  predicate IsTagOf(tag: string, group: string, code: int) {
    && StartsWith(tag, group) && |tag| == |group| + 11
    && tag[|group|] == '0' && tag[|group| + 1] == 'x' && tag[|group| + 10] == ')'
    && (forall k :: |group| + 2 <= k < |group| + 7 ==> tag[k] == '0')
    && HexDigitValue(tag[|group| + 7]) * 256 + HexDigitValue(tag[|group| + 8]) * 16 + HexDigitValue(tag[|group| + 9]) == code
  }

  /** Every error tag spells, in hexadecimal, the code of its message. */
  lemma ErrorTagsSpellCodes()
    ensures IsTagOf(TAG_CANNOT_RESUME, ERROR_TAG_PREFIX, ERROR_CANNOT_RESUME)
    ensures IsTagOf(TAG_DEVICE_NOT_FOUND, ERROR_TAG_PREFIX, ERROR_DEVICE_NOT_FOUND)
    ensures IsTagOf(TAG_FILE_ALREADY_EXISTS, ERROR_TAG_PREFIX, ERROR_FILE_ALREADY_EXISTS)
    ensures IsTagOf(TAG_FILE_ERROR, ERROR_TAG_PREFIX, ERROR_FILE_ERROR)
    ensures IsTagOf(TAG_HTTP_DATA_ERROR, ERROR_TAG_PREFIX, ERROR_HTTP_DATA_ERROR)
    ensures IsTagOf(TAG_INSUFFICIENT_SPACE, ERROR_TAG_PREFIX, ERROR_INSUFFICIENT_SPACE)
    ensures IsTagOf(TAG_TOO_MANY_REDIRECTS, ERROR_TAG_PREFIX, ERROR_TOO_MANY_REDIRECTS)
    ensures IsTagOf(TAG_UNHANDLED_HTTP_CODE, ERROR_TAG_PREFIX, ERROR_UNHANDLED_HTTP_CODE)
    ensures IsTagOf(TAG_ERROR_UNKNOWN, ERROR_TAG_PREFIX, ERROR_UNKNOWN)
  {
  }

  /** Every paused tag spells, in hexadecimal, the code of its message. */
  lemma PausedTagsSpellCodes()
    ensures IsTagOf(TAG_QUEUED_FOR_WIFI, PAUSED_TAG_PREFIX, PAUSED_QUEUED_FOR_WIFI)
    ensures IsTagOf(TAG_PAUSED_UNKNOWN, PAUSED_TAG_PREFIX, PAUSED_UNKNOWN)
    ensures IsTagOf(TAG_WAITING_FOR_NETWORK, PAUSED_TAG_PREFIX, PAUSED_WAITING_FOR_NETWORK)
    ensures IsTagOf(TAG_WAITING_TO_RETRY, PAUSED_TAG_PREFIX, PAUSED_WAITING_TO_RETRY)
  {
  }

  /** A message that starts with a tag of `group` carries the tag's code. */
  lemma TagCarriesCode(m: string, tag: string, group: string, code: int)
    requires StartsWith(m, tag) && IsTagOf(tag, group, code)
    ensures StartsWith(m, group) && TaggedCode(m, group) == Some(code)
  {
    var start := |group| + 2;
    assert m[start..start + 8] == tag[start..start + 8];
    ParseHexLow(tag[start..start + 8]);
  }

  /** Every reported reason message identifies the code it was made from. */
  lemma ReasonRoundTrip(reason: int)
    ensures ReasonCodeOf(ConvertReasonString(Some(reason)).value) == Some(reason)
  {
    var m := ConvertReasonString(Some(reason)).value;
    if IsKnownReason(reason) {
      KnownReasonRoundTrip(reason);
    } else {
      NotStartsWithAt(m, ERROR_TAG_PREFIX, 0);
      NotStartsWithAt(m, PAUSED_TAG_PREFIX, 0);
    }
  }

  lemma KnownReasonRoundTrip(reason: int)
    requires IsKnownReason(reason)
    ensures ReasonCodeOf(ConvertReasonString(Some(reason)).value) == Some(reason)
  {
    var m := ConvertReasonString(Some(reason)).value;
    if reason in {ERROR_CANNOT_RESUME, ERROR_DEVICE_NOT_FOUND, ERROR_FILE_ALREADY_EXISTS, ERROR_FILE_ERROR,
                  ERROR_HTTP_DATA_ERROR, ERROR_INSUFFICIENT_SPACE, ERROR_TOO_MANY_REDIRECTS,
                  ERROR_UNHANDLED_HTTP_CODE, ERROR_UNKNOWN} {
      ErrorReasonRoundTrip(reason);
    } else {
      PausedReasonRoundTrip(reason);
    }
  }

  /** The hexadecimal digits in each error tag are the code the message stands for. */
  lemma ErrorReasonRoundTrip(reason: int)
    requires reason in {ERROR_CANNOT_RESUME, ERROR_DEVICE_NOT_FOUND, ERROR_FILE_ALREADY_EXISTS, ERROR_FILE_ERROR,
                        ERROR_HTTP_DATA_ERROR, ERROR_INSUFFICIENT_SPACE, ERROR_TOO_MANY_REDIRECTS,
                        ERROR_UNHANDLED_HTTP_CODE, ERROR_UNKNOWN}
    ensures ReasonCodeOf(ConvertReasonString(Some(reason)).value) == Some(reason)
  {
    var m := ConvertReasonString(Some(reason)).value;
    ErrorTagsSpellCodes();
    if reason == ERROR_CANNOT_RESUME {
      assert m == MSG_CANNOT_RESUME;
      TagCarriesCode(m, TAG_CANNOT_RESUME, ERROR_TAG_PREFIX, ERROR_CANNOT_RESUME);
    } else if reason == ERROR_DEVICE_NOT_FOUND {
      assert m == MSG_DEVICE_NOT_FOUND;
      TagCarriesCode(m, TAG_DEVICE_NOT_FOUND, ERROR_TAG_PREFIX, ERROR_DEVICE_NOT_FOUND);
    } else if reason == ERROR_FILE_ALREADY_EXISTS {
      assert m == MSG_FILE_ALREADY_EXISTS;
      TagCarriesCode(m, TAG_FILE_ALREADY_EXISTS, ERROR_TAG_PREFIX, ERROR_FILE_ALREADY_EXISTS);
    } else if reason == ERROR_FILE_ERROR {
      assert m == MSG_FILE_ERROR;
      TagCarriesCode(m, TAG_FILE_ERROR, ERROR_TAG_PREFIX, ERROR_FILE_ERROR);
    } else if reason == ERROR_HTTP_DATA_ERROR {
      assert m == MSG_HTTP_DATA_ERROR;
      TagCarriesCode(m, TAG_HTTP_DATA_ERROR, ERROR_TAG_PREFIX, ERROR_HTTP_DATA_ERROR);
    } else if reason == ERROR_INSUFFICIENT_SPACE {
      assert m == MSG_INSUFFICIENT_SPACE;
      TagCarriesCode(m, TAG_INSUFFICIENT_SPACE, ERROR_TAG_PREFIX, ERROR_INSUFFICIENT_SPACE);
    } else if reason == ERROR_TOO_MANY_REDIRECTS {
      assert m == MSG_TOO_MANY_REDIRECTS;
      TagCarriesCode(m, TAG_TOO_MANY_REDIRECTS, ERROR_TAG_PREFIX, ERROR_TOO_MANY_REDIRECTS);
    } else if reason == ERROR_UNHANDLED_HTTP_CODE {
      assert m == MSG_UNHANDLED_HTTP_CODE;
      TagCarriesCode(m, TAG_UNHANDLED_HTTP_CODE, ERROR_TAG_PREFIX, ERROR_UNHANDLED_HTTP_CODE);
    } else if reason == ERROR_UNKNOWN {
      assert m == MSG_ERROR_UNKNOWN;
      TagCarriesCode(m, TAG_ERROR_UNKNOWN, ERROR_TAG_PREFIX, ERROR_UNKNOWN);
    }
  }

  /** The hexadecimal digits in each paused tag are the code the message stands for. */
  lemma PausedReasonRoundTrip(reason: int)
    requires reason in {PAUSED_QUEUED_FOR_WIFI, PAUSED_UNKNOWN, PAUSED_WAITING_FOR_NETWORK, PAUSED_WAITING_TO_RETRY}
    ensures ReasonCodeOf(ConvertReasonString(Some(reason)).value) == Some(reason)
  {
    var m := ConvertReasonString(Some(reason)).value;
    NotStartsWithAt(m, ERROR_TAG_PREFIX, 7);
    PausedTagsSpellCodes();
    if reason == PAUSED_QUEUED_FOR_WIFI {
      assert m == MSG_QUEUED_FOR_WIFI;
      TagCarriesCode(m, TAG_QUEUED_FOR_WIFI, PAUSED_TAG_PREFIX, PAUSED_QUEUED_FOR_WIFI);
    } else if reason == PAUSED_UNKNOWN {
      assert m == MSG_PAUSED_UNKNOWN;
      TagCarriesCode(m, TAG_PAUSED_UNKNOWN, PAUSED_TAG_PREFIX, PAUSED_UNKNOWN);
    } else if reason == PAUSED_WAITING_FOR_NETWORK {
      assert m == MSG_WAITING_FOR_NETWORK;
      TagCarriesCode(m, TAG_WAITING_FOR_NETWORK, PAUSED_TAG_PREFIX, PAUSED_WAITING_FOR_NETWORK);
    } else if reason == PAUSED_WAITING_TO_RETRY {
      assert m == MSG_WAITING_TO_RETRY;
      TagCarriesCode(m, TAG_WAITING_TO_RETRY, PAUSED_TAG_PREFIX, PAUSED_WAITING_TO_RETRY);
    }
  }

  lemma NotStartsWithAt(s: string, prefix: string, k: nat)
    requires k < |s| && k < |prefix| && s[k] != prefix[k]
    ensures !StartsWith(s, prefix)
  {
  }

  /** Different codes are never reported with the same message. */
  lemma ReasonMessagesDistinct(r1: int, r2: int)
    requires r1 != r2
    ensures ConvertReasonString(Some(r1)) != ConvertReasonString(Some(r2))
  {
    ReasonRoundTrip(r1);
    ReasonRoundTrip(r2);
  }
}
