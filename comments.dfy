/** The comment record shared by both views and the local store, with the
    string operations they rely on: JavaScript's `trim`, `.length` (which
    counts UTF-16 code units) and the text a bubble displays. */
module Comments {

  datatype Option<+T> = None | Some(value: T)

  /** One comment. `name` is absent for an anonymous comment; `createdAt`
      is in milliseconds since the epoch. */
  datatype CommentItem = CommentItem(name: Option<string>, comment: string, createdAt: int, id: string)

  // ---------------------------------------------------------------------------
  // String.prototype.trim

  /** The code points JavaScript counts as WhiteSpace or LineTerminator,
      which is exactly what `trim` strips from both ends. */
  predicate IsSpace(c: char)
  {
    var n := c as int;
    n == 0x09 || n == 0x0A || n == 0x0B || n == 0x0C || n == 0x0D || n == 0x20 ||
    n == 0xA0 || n == 0x1680 || (0x2000 <= n <= 0x200A) || n == 0x2028 || n == 0x2029 ||
    n == 0x202F || n == 0x205F || n == 0x3000 || n == 0xFEFF
  }

  predicate AllSpace(s: string)
  {
    forall k :: 0 <= k < |s| ==> IsSpace(s[k])
  }

  /** Where the leading white space ends: every character before it is
      white space, and the one at it (if any) is not. */
  function StartIndex(s: string): (i: nat)
    ensures i <= |s|
    ensures forall k :: 0 <= k < i ==> IsSpace(s[k])
    ensures i < |s| ==> !IsSpace(s[i])
  {
    if s == [] || !IsSpace(s[0]) then 0 else 1 + StartIndex(s[1..])
  }

  /** Where the trailing white space begins: every character from it on is
      white space, and the one before it (if any) is not. */
  function EndIndex(s: string): (j: nat)
    ensures j <= |s|
    ensures forall k :: j <= k < |s| ==> IsSpace(s[k])
    ensures j > 0 ==> !IsSpace(s[j - 1])
  {
    if s == [] || !IsSpace(s[|s| - 1]) then |s| else EndIndex(s[..|s| - 1])
  }

  /** `s.trim()`: the characters between the leading and the trailing white
      space. When not empty it begins and ends with a character that is not
      white space. */
  function Trim(s: string): (r: string)
    ensures |r| <= |s|
    ensures r == [] || (!IsSpace(r[0]) && !IsSpace(r[|r| - 1]))
  {
    if StartIndex(s) < EndIndex(s) then s[StartIndex(s)..EndIndex(s)] else []
  }

  /** Trimming leaves nothing exactly when the string is all white space. */
  lemma TrimEmptyIffBlank(s: string)
    ensures Trim(s) == [] <==> AllSpace(s)
  {
    var i, j := StartIndex(s), EndIndex(s);
    if i < j {
      assert !IsSpace(s[i]);
    } else {
      SpaceRunsMeet(s);
    }
  }

  /** When the leading white space reaches past where the trailing white
      space begins, it is the whole string. */
  lemma SpaceRunsMeet(s: string)
    requires EndIndex(s) <= StartIndex(s)
    ensures StartIndex(s) == |s|
  {
    var i := StartIndex(s);
    if i < |s| {
      assert false;
    }
  }

  /** The trimmed string is the slice of `s` that starts where the leading
      white space ends, and only white space surrounds it. */
  lemma TrimSlice(s: string)
    ensures var i := StartIndex(s);
      i + |Trim(s)| <= |s| && Trim(s) == s[i..i + |Trim(s)|] && AllSpace(s[..i]) && AllSpace(s[i + |Trim(s)|..])
  {
    var i, j := StartIndex(s), EndIndex(s);
    if i < j {
      assert Trim(s) == s[i..j] && i + |Trim(s)| == j;
      assert AllSpace(s[j..]);
    } else {
      SpaceRunsMeet(s);
      assert Trim(s) == [] && s[i..] == [];
    }
    assert AllSpace(s[..i]);
  }

  lemma TrimIdempotent(s: string)
    ensures Trim(Trim(s)) == Trim(s)
  {
    var r := Trim(s);
    if r != [] {
      assert StartIndex(r) == 0;
      assert EndIndex(r) == |r|;
    }
  }

  // ---------------------------------------------------------------------------
  // String length as JavaScript counts it

  /** `s.length`: the number of UTF-16 code units, so a character outside
      the Basic Multilingual Plane (an emoji, say) counts twice. */
  function Utf16Length(s: string): (n: nat)
    ensures |s| <= n <= 2 * |s|
  {
    if s == [] then 0 else (if s[0] as int >= 0x10000 then 2 else 1) + Utf16Length(s[1..])
  }

  lemma {:induction false} Utf16LengthConcat(a: string, b: string)
    ensures Utf16Length(a + b) == Utf16Length(a) + Utf16Length(b)
  {
    if a != [] {
      assert (a + b)[0] == a[0];
      assert (a + b)[1..] == a[1..] + b;
      Utf16LengthConcat(a[1..], b);
    } else {
      assert a + b == b;
    }
  }

  // ---------------------------------------------------------------------------
  // The text of a bubble

  /** Full-width colon U+FF1A, one UTF-16 code unit. */
  const Separator: string := "："

  /** JavaScript truthiness of an optional string: present and non-empty. */
  predicate IsTruthy(name: Option<string>)
  {
    name.Some? && name.value != ""
  }

  /** The text shown in a bubble and measured to size it: `name：comment`
      when the name is truthy, the comment alone otherwise. */
  function DisplayText(item: CommentItem): (t: string)
    ensures |item.comment| <= |t| && t[|t| - |item.comment|..] == item.comment
    ensures IsTruthy(item.name) <==> |t| > |item.comment|
    ensures IsTruthy(item.name) ==>
      |t| == |item.name.value| + 1 + |item.comment| &&
      t[..|item.name.value|] == item.name.value && t[|item.name.value|] == Separator[0]
  {
    if IsTruthy(item.name) then item.name.value + Separator + item.comment else item.comment
  }

  /** The UTF-16 length of the display text is the comment's, plus the
      name's and one for the separator when the name is shown. */
  lemma DisplayTextLength(item: CommentItem)
    ensures Utf16Length(DisplayText(item)) ==
      (if IsTruthy(item.name) then Utf16Length(item.name.value) + 1 else 0) + Utf16Length(item.comment)
  {
    if IsTruthy(item.name) {
      Utf16LengthConcat(item.name.value + Separator, item.comment);
      Utf16LengthConcat(item.name.value, Separator);
      assert Utf16Length(Separator) == 1;
    }
  }
}
