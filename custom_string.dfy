/** The custom String exercise: a NUL-terminated character buffer with its
    length.  The const operations return fresh values and are functions over
    the buffer's characters; operator+= replaces the buffer in place. */
module CustomString {
  import Errors
  import Limits

  /** String::npos, size_t(-1). */
  const NPOS: nat := Limits.SIZE_MAX
  const INVALID_START: string := "Invalid start position"

  predicate NoNul(s: seq<char>) {
    forall i :: 0 <= i < |s| ==> s[i] != '\0'
  }

  /** The C string a char buffer holds: what strlen counts and strcpy copies,
      everything before the first NUL. */
  function CString(buf: seq<char>): (r: seq<char>)
    ensures NoNul(r) && r <= buf
    ensures |r| < |buf| ==> buf[|r|] == '\0'
  {
    if buf == [] || buf[0] == '\0' then [] else [buf[0]] + CString(buf[1..])
  }

  /** A buffer without NUL is its own C string. */
  lemma {:induction false} CStringOfNoNul(s: seq<char>)
    requires NoNul(s)
    ensures CString(s) == s
  {
    if s != [] {
      CStringOfNoNul(s[1..]);
    }
  }

  /** substr(start, length): the characters from start on, at most length of
      them; out_of_range when start is past the end. */
  function Substr(s: seq<char>, start: nat, length: nat): (r: Errors.Result<seq<char>>)
    ensures r.Throw? <==> start > |s|
    ensures r.Throw? ==> r.ex == Errors.OutOfRange(INVALID_START)
    ensures r.Ok? ==> |r.value| == Limits.Min(length, |s| - start)
    ensures r.Ok? ==> forall i :: 0 <= i < |r.value| ==> r.value[i] == s[start + i]
  {
    if start > |s| then
      Errors.Throw(Errors.OutOfRange(INVALID_START))
    else
      // strncpy copies at most length characters and stops at the terminator
      Errors.Ok(s[start..Limits.Min(start + length, |s|)])
  }

  /** sub occurs in s at position j. */
  predicate OccursAt(s: seq<char>, sub: seq<char>, j: int) {
    0 <= j && j + |sub| <= |s| && s[j..j + |sub|] == sub
  }

  /** strstr from position i on: the first occurrence at or after i. */
  function FindFrom(s: seq<char>, sub: seq<char>, i: nat): (r: nat)
    requires i <= |s| < NPOS
    decreases |s| - i
    ensures r == NPOS <==> forall j :: i <= j ==> !OccursAt(s, sub, j)
    ensures r != NPOS ==> i <= r && OccursAt(s, sub, r) && forall j :: i <= j < r ==> !OccursAt(s, sub, j)
  {
    if i + |sub| > |s| then NPOS
    else if s[i..i + |sub|] == sub then assert OccursAt(s, sub, i); i
    else FindFrom(s, sub, i + 1)
  }

  /** find(substring): the least index where substring occurs, npos if none. */
  function Find(s: seq<char>, sub: seq<char>): (r: nat)
    requires |s| < NPOS
    ensures r == NPOS <==> forall j :: !OccursAt(s, sub, j)
    ensures r != NPOS ==> OccursAt(s, sub, r) && forall j :: 0 <= j < r ==> !OccursAt(s, sub, j)
  {
    FindFrom(s, sub, 0)
  }

  /** The empty string is found at position 0. */
  lemma FindEmpty(s: seq<char>)
    requires |s| < NPOS
    ensures Find(s, []) == 0
  {
    assert OccursAt(s, [], 0);
  }

  /** operator+: strcpy then strcat of the two buffers. */
  function Concat(a: seq<char>, b: seq<char>): (r: seq<char>)
    requires NoNul(a) && NoNul(b)
    ensures NoNul(r) && |r| == |a| + |b|
    ensures r[..|a|] == a && r[|a|..] == b
  {
    CStringOfNoNul(a + b);
    CString(a + b)
  }

  /** strcmp over two C strings: negative, zero or positive as a sorts before,
      equal to, or after b; a missing character reads as the terminator. */
  function StrCmp(a: seq<char>, b: seq<char>): int
    decreases |a|
  {
    var ca := if a == [] then 0 else a[0] as int;
    var cb := if b == [] then 0 else b[0] as int;
    if ca != cb then ca - cb
    else if ca == 0 then 0
    else StrCmp(a[1..], b[1..])
  }

  /** strcmp is zero exactly on equal contents. */
  lemma {:induction false} StrCmpZero(a: seq<char>, b: seq<char>)
    requires NoNul(a) && NoNul(b)
    ensures StrCmp(a, b) == 0 <==> a == b
    decreases |a|
  {
    if a != [] && b != [] && a[0] == b[0] {
      StrCmpZero(a[1..], b[1..]);
      if a[1..] == b[1..] {
        assert a == [a[0]] + a[1..] && b == [b[0]] + b[1..];
      }
    }
  }

  /** operator== */
  function Equal(a: seq<char>, b: seq<char>): (r: bool)
    requires NoNul(a) && NoNul(b)
    ensures r <==> a == b
  {
    StrCmpZero(a, b);
    StrCmp(a, b) == 0
  }

  /** operator!= */
  function NotEqual(a: seq<char>, b: seq<char>): (r: bool)
    requires NoNul(a) && NoNul(b)
    ensures r <==> a != b
  {
    !Equal(a, b)
  }

  class String {
    var str: seq<char>
    var len: nat

    /** len counts the characters in front of the terminator. */
    ghost predicate Valid()
      reads this
    {
      len == |str| && NoNul(str) && len < NPOS
    }

    /** String(const char* str = ""): copies the C string buf holds. */
    constructor (buf: seq<char> := "")
      requires |CString(buf)| < NPOS
      ensures Valid() && str == CString(buf) && len == |CString(buf)|
    {
      var s := CString(buf);
      len := |s|;
      str := s;
    }

    /** The copy constructor. */
    constructor Copy(other: String)
      requires other.Valid()
      ensures Valid() && str == other.str && len == other.len
    {
      len := other.len;
      str := CString(other.str);
      CStringOfNoNul(other.str);
    }

    function Length(): (n: nat)
      reads this
      requires Valid()
      ensures n == |str|
    {
      len
    }

    /** operator+=: appends other's characters; other may be this string. */
    method Append(other: String)
      requires Valid() && other.Valid()
      requires len + other.len < NPOS
      modifies this
      ensures Valid()
      ensures str == old(str) + old(other.str) && len == old(len) + old(other.len)
    {
      var newStr := Concat(str, other.str);
      str := newStr;
      len := len + other.len;
    }
  }

  /** The values main prints: "Hello, " + "world!" is "Hello, world!",
      its substr(7, 5) is "world", and "world" is found at 7. */
  lemma HelloWorldScenario()
    ensures Concat("Hello, ", "world!") == "Hello, world!"
    ensures Substr("Hello, world!", 7, 5) == Errors.Ok("world")
    ensures Find("Hello, world!", "world") == 7
  {
    var s := "Hello, world!";
    assert Concat("Hello, ", "world!") == s;
    assert s[7..12] == "world";
    assert OccursAt(s, "world", 7);
    forall j | 0 <= j < 7 ensures !OccursAt(s, "world", j) {
      assert s[j..j + 5][0] == s[j] != 'w';
    }
  }

  /** a += a doubles a, whatever a holds: the right operand is read before
      the buffer is replaced. */
  method SelfAppend(a: String)
    requires a.Valid() && a.len + a.len < NPOS
    modifies a
    ensures a.Valid()
    ensures a.str == old(a.str) + old(a.str) && a.len == 2 * old(a.len)
  {
    a.Append(a);
  }

  /** The run of main, with the strings built as objects. */
  method Demo() returns (str3: seq<char>, sub: Errors.Result<seq<char>>, pos: nat)
    ensures str3 == "Hello, world!"
    ensures sub == Errors.Ok("world")
    ensures pos == 7
  {
    CStringOfNoNul("Hello, ");
    CStringOfNoNul("world!");
    var str1 := new String("Hello, ");
    var str2 := new String("world!");
    HelloWorldScenario();
    str3 := Concat(str1.str, str2.str);
    sub := Substr(str3, 7, 5);
    pos := Find(str3, "world");
  }
}
