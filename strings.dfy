/** The java.lang.String and commons-lang operations the core relies on, over seq<char>. */
module Strings {

  /** java.lang.Character.isWhitespace: the Unicode space, line and paragraph separators other
      than the non-breaking ones, plus the ASCII controls TAB, LF, VT, FF, CR and FS..US. */
  predicate IsWhitespace(c: char) {
    || c == ' ' || c == '\t' || c == '\n' || c == '\U{000B}' || c == '\U{000C}' || c == '\r'
    || ('\U{001C}' <= c <= '\U{001F}')
    || c == '\U{1680}' || ('\U{2000}' <= c <= '\U{2006}') || ('\U{2008}' <= c <= '\U{200A}')
    || c == '\U{2028}' || c == '\U{2029}' || c == '\U{205F}' || c == '\U{3000}'
  }

  /** StringUtils.isBlank on a non-null string: empty or whitespace only. */
  predicate IsBlank(s: string) {
    forall i :: 0 <= i < |s| ==> IsWhitespace(s[i])
  }

  predicate StartsWith(s: string, prefix: string) {
    |prefix| <= |s| && s[..|prefix|] == prefix
  }

  predicate EndsWith(s: string, suffix: string) {
    |suffix| <= |s| && s[|s| - |suffix|..] == suffix
  }

  /** String.lastIndexOf for one character: the last position holding c, or -1. */
  function LastIndexOf(s: string, c: char): (r: int)
    ensures -1 <= r < |s|
    ensures r >= 0 ==> s[r] == c
    ensures forall j :: r < j < |s| ==> s[j] != c
  {
    if |s| == 0 then -1
    else if s[|s| - 1] == c then |s| - 1
    else LastIndexOf(s[..|s| - 1], c)
  }

  /** String.indexOf for one character: the first position holding c, or -1. */
  function IndexOf(s: string, c: char): (r: int)
    ensures -1 <= r < |s|
    ensures r >= 0 ==> s[r] == c
    ensures forall j :: 0 <= j < |s| && (r < 0 || j < r) ==> s[j] != c
  {
    if |s| == 0 then -1
    else if s[0] == c then 0
    else var k := IndexOf(s[1..], c); if k < 0 then -1 else k + 1
  }

  /** Every field of s between occurrences of sep, empty fields included. */
  function Fields(s: string, sep: char): (r: seq<string>)
    ensures |r| >= 1
    ensures forall k :: 0 <= k < |r| ==> sep !in r[k]
  {
    if |s| == 0 then [""]
    else
      var rest := Fields(s[1..], sep);
      if s[0] == sep then [""] + rest else [[s[0]] + rest[0]] + rest[1..]
  }

  /** The parts joined back together with sep between them. */
  function Join(parts: seq<string>, sep: char): string {
    if |parts| == 0 then ""
    else if |parts| == 1 then parts[0]
    else parts[0] + [sep] + Join(parts[1..], sep)
  }

  /** Splitting then joining gives the string back. */
  lemma {:induction false} JoinFields(s: string, sep: char)
    ensures Join(Fields(s, sep), sep) == s
  {
    if |s| > 0 {
      JoinFields(s[1..], sep);
      var rest := Fields(s[1..], sep);
      if s[0] != sep {
        if |rest| == 1 {
          assert Join(Fields(s, sep), sep) == [s[0]] + rest[0];
        } else {
          assert Join(Fields(s, sep), sep) == [s[0]] + rest[0] + [sep] + Join(rest[1..], sep);
        }
      }
    }
  }

  /** Joining parts that do not contain sep then splitting gives the parts back. */
  lemma {:induction false} FieldsJoin(parts: seq<string>, sep: char)
    requires |parts| >= 1
    requires forall k :: 0 <= k < |parts| ==> sep !in parts[k]
    ensures Fields(Join(parts, sep), sep) == parts
  {
    if |parts| == 1 {
      FieldsOfSepFree(parts[0], sep);
    } else {
      FieldsJoin(parts[1..], sep);
      FieldsPrefix(parts[0], Join(parts[1..], sep), sep);
      assert parts == [parts[0]] + parts[1..];
    }
  }

  lemma {:induction false} FieldsOfSepFree(s: string, sep: char)
    requires sep !in s
    ensures Fields(s, sep) == [s]
  {
    if |s| > 0 {
      FieldsOfSepFree(s[1..], sep);
      assert [s[0]] + s[1..] == s;
    }
  }

  lemma {:induction false} FieldsPrefix(a: string, b: string, sep: char)
    requires sep !in a
    ensures Fields(a + [sep] + b, sep) == [a] + Fields(b, sep)
  {
    if |a| == 0 {
      assert a + [sep] + b == [sep] + b;
      assert ([sep] + b)[1..] == b;
    } else {
      FieldsPrefix(a[1..], b, sep);
      assert (a + [sep] + b)[1..] == a[1..] + [sep] + b;
      assert [a[0]] + a[1..] == a;
    }
  }

  /** The fields without the empty strings at the end. */
  function DropTrailingEmpty(parts: seq<string>): (r: seq<string>)
    ensures |r| <= |parts| && r == parts[..|r|]
    ensures |r| > 0 ==> r[|r| - 1] != ""
    ensures forall k :: |r| <= k < |parts| ==> parts[k] == ""
  {
    if |parts| == 0 then []
    else if parts[|parts| - 1] == "" then DropTrailingEmpty(parts[..|parts| - 1])
    else parts
  }

  /** String.split(sep) with the default limit 0: when sep occurs, the fields with trailing
      empty strings removed; when it does not, the string itself as the only element. */
  function Split(s: string, sep: char): seq<string> {
    if sep in s then DropTrailingEmpty(Fields(s, sep)) else [s]
  }

  /** String.split(sep, 2): the text before the first sep and everything after it, or the
      whole string when sep does not occur. */
  function SplitOnce(s: string, sep: char): (r: seq<string>)
    ensures 1 <= |r| <= 2
    ensures |r| == 2 <==> sep in s
    ensures |r| == 2 ==> sep !in r[0] && s == r[0] + [sep] + r[1]
    ensures |r| == 1 ==> r[0] == s
  {
    var i := IndexOf(s, sep);
    if i < 0 then [s]
    else
      assert s == s[..i] + [sep] + s[i + 1..];
      [s[..i], s[i + 1..]]
  }
}
