/** Shared vocabulary: nullable references, raised exceptions, the .NET integer
    widths the pixel code relies on, and the few string predicates of the
    framework (IsNullOrWhiteSpace, ToLowerInvariant, EndsWith) the task code calls. */
module Common {

  /** A .NET reference that may be null. */
  datatype Option<+T> = None | Some(value: T)

  /** The exceptions the modelled code raises or catches, by kind. */
  datatype Error =
    | NullReference          // NullReferenceException
    | ArgumentNull           // ArgumentNullException
    | IndexOutOfRange        // IndexOutOfRangeException
    | GenericException       // a bare System.Exception
    | OperationCanceled      // OperationCanceledException
    | TargetSetRaised        // the delivery target's Set raised
    | DecoderRaised          // a platform decoder raised
    | ResolverRaised         // a data resolver or stream read raised

  /** A call that either returns a value or raises. */
  datatype Result<+T> = Ok(value: T) | Raised(error: Error)

  /** `Char.IsWhiteSpace`: the Unicode space separators, line and paragraph
      separators, and the control characters U+0009..U+000D and U+0085. */
  predicate IsWhiteSpace(c: char) {
    || ('\U{0009}' <= c <= '\U{000D}')
    || c == ' ' || c == '\U{0085}' || c == '\U{00A0}' || c == '\U{1680}'
    || ('\U{2000}' <= c <= '\U{200A}')
    || c == '\U{2028}' || c == '\U{2029}' || c == '\U{202F}' || c == '\U{205F}' || c == '\U{3000}'
  }

  /** `string.IsNullOrWhiteSpace`. */
  predicate IsNullOrWhiteSpace(s: Option<string>) {
    s.None? || forall i :: 0 <= i < |s.value| ==> IsWhiteSpace(s.value[i])
  }

  /** `Char.ToLowerInvariant` restricted to the ASCII letters. */
  function ToLowerChar(c: char): (r: char)
    ensures 'A' <= c <= 'Z' ==> 'a' <= r <= 'z' && r as int - c as int == 32
    ensures !('A' <= c <= 'Z') ==> r == c
  {
    if 'A' <= c <= 'Z' then (c as int + 32) as char else c
  }

  /** `string.ToLowerInvariant` on ASCII letters; every other character is kept. */
  function ToLowerInvariant(s: string): (r: string)
    ensures |r| == |s|
    ensures forall i :: 0 <= i < |s| ==> r[i] == ToLowerChar(s[i])
  {
    seq(|s|, i requires 0 <= i < |s| => ToLowerChar(s[i]))
  }

  /** `string.EndsWith`, compared character by character. The calls this
      models compare culture-sensitively (the current culture on Windows, the
      invariant culture on the other platforms), which can ignore characters
      of zero weight such as a soft hyphen; this character-wise comparison
      does not. */
  predicate EndsWith(s: string, suffix: string) {
    |suffix| <= |s| && s[|s| - |suffix|..] == suffix
  }

  /** The test both task variants use to recognise a WebP path: the
      lower-cased path ends with ".webp". */
  predicate IsWebPPath(path: string) {
    EndsWith(ToLowerInvariant(path), ".webp")
  }

  /** The WebP test ignores the case of the extension: under the
      character-wise `EndsWith` it holds exactly when the last five characters
      are '.', then w/W, e/E, b/B, p/P. */
  lemma WebPPathIgnoresCase(path: string)
    ensures IsWebPPath(path) <==>
      && |path| >= 5
      && path[|path| - 5] == '.'
      && path[|path| - 4] in {'w', 'W'}
      && path[|path| - 3] in {'e', 'E'}
      && path[|path| - 2] in {'b', 'B'}
      && path[|path| - 1] in {'p', 'P'}
  {
    var n := |path|;
    if |path| >= 5 {
      var low := ToLowerInvariant(path);
      var tail := low[n - 5..];
      assert tail == [low[n - 5], low[n - 4], low[n - 3], low[n - 2], low[n - 1]];
    }
  }
}
