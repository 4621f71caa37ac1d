/** The two pieces of .NET's string library that the facade relies on:
    `char.IsWhiteSpace` and `string.IsNullOrWhiteSpace`. */
module DotNetText {
  import opened Wrappers

  /** `char.IsWhiteSpace`: the control characters U+0009..U+000D, U+0085, and
      every character of the Unicode categories Zs, Zl and Zp. */
  predicate IsWhiteSpace(c: char) {
    var n := c as int;
    (0x09 <= n <= 0x0D) || n == 0x20 || n == 0x85 || n == 0xA0 || n == 0x1680
    || (0x2000 <= n <= 0x200A) || n == 0x2028 || n == 0x2029 || n == 0x202F
    || n == 0x205F || n == 0x3000
  }

  /** The scan `string.IsNullOrWhiteSpace` performs on a non-null string:
      stop at the first character that is not white space. */
  function AllWhiteSpace(s: string): (r: bool)
    ensures r <==> forall i :: 0 <= i < |s| ==> IsWhiteSpace(s[i])
  {
    if |s| == 0 then true
    else if !IsWhiteSpace(s[0]) then false
    else
      var rest := AllWhiteSpace(s[1..]);
      assert forall i :: 1 <= i < |s| ==> s[i] == s[1..][i - 1];
      rest
  }

  /** `string.IsNullOrWhiteSpace`: null, or no character other than white
      space (so the empty string qualifies). */
  function IsNullOrWhiteSpace(s: Option<string>): (r: bool)
    ensures r <==> s.None? || forall i :: 0 <= i < |s.value| ==> IsWhiteSpace(s.value[i])
    ensures s == Some("") ==> r
    ensures !r <==> s.Some? && exists i :: 0 <= i < |s.value| && !IsWhiteSpace(s.value[i])
  {
    match s
    case None => true
    case Some(t) => AllWhiteSpace(t)
  }
}
