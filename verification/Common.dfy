/** Datatypes shared by every module of the model. */
module Common {

  datatype Option<+T> = None | Some(value: T)

  datatype Result<+R, +E> = Ok(value: R) | Err(error: E)

  /** No element occurs twice. */
  ghost predicate Distinct<T>(s: seq<T>) {
    forall i, j :: 0 <= i < j < |s| ==> s[i] != s[j]
  }

  function Min(a: int, b: int): (m: int)
    ensures m <= a && m <= b && (m == a || m == b)
  {
    if a <= b then a else b
  }

  function Max(a: int, b: int): (m: int)
    ensures a <= m && b <= m && (m == a || m == b)
  {
    if a <= b then b else a
  }

  function Elements<T(==)>(s: seq<T>): set<T> { set x | x in s }

  /** The set of elements of a duplicate-free sequence is as large as the sequence. */
  lemma {:induction false} DistinctSetSize<T>(s: seq<T>)
    requires Distinct(s)
    ensures |Elements(s)| == |s|
  {
    if s != [] {
      var front, last := s[..|s| - 1], s[|s| - 1];
      DistinctSetSize(front);
      assert Elements(s) == Elements(front) + {last};
      assert last !in front;
    }
  }

  /** A subset is no larger than its superset. */
  lemma {:induction false} SubsetSize<T>(a: set<T>, b: set<T>)
    requires a <= b
    ensures |a| <= |b|
  {
    if a != {} {
      var x :| x in a;
      SubsetSize(a - {x}, b - {x});
    }
  }

  lemma Regroup<T>(a: seq<T>, b: seq<T>, c: seq<T>, d: seq<T>, e: seq<T>)
    ensures a + b + c + d + e == a + b + (c + d + e)
  {
  }

  lemma SplitAround<T>(s: seq<T>, i: nat)
    requires i < |s|
    ensures s == s[..i] + [s[i]] + s[i + 1..]
  {
  }

  // ------------------------------------------------------------------ text

  predicate EndsWith(s: string, suffix: string) {
    |suffix| <= |s| && s[|s| - |suffix|..] == suffix
  }

  /** Message types that answer an earlier request. */
  predicate IsResponse(msgType: string) {
    EndsWith(msgType, "/response") || EndsWith(msgType, ".response")
  }

  /** White space that `String.prototype.trim` removes. */
  predicate IsBlank(c: char) {
    var u := c as int;
    9 <= u <= 13 || u in {32, 0xA0, 0x1680, 0x2028, 0x2029, 0x202F, 0x205F, 0x3000, 0xFEFF} || 0x2000 <= u <= 0x200A
  }

  predicate AllBlank(s: string) {
    forall i :: 0 <= i < |s| ==> IsBlank(s[i])
  }

  /** The type of an answer, as senders write it. */
  ghost predicate EndsInResponse(msgType: string) {
    exists s: string :: msgType == s + "/response" || msgType == s + ".response"
  }

  lemma ResponseMeans(msgType: string)
    ensures IsResponse(msgType) <==> EndsInResponse(msgType)
  {
    if IsResponse(msgType) {
      var s := msgType[..|msgType| - 9];
      assert msgType == s + msgType[|s|..];
    }
    if s: string :| msgType == s + "/response" || msgType == s + ".response" {
      assert msgType[|msgType| - 9..] == "/response" || msgType[|msgType| - 9..] == ".response";
    }
  }

  /** Blank are the tabs, line and page breaks, the space and the no-break space, and the separators
      of other scripts. */
  lemma BlankMeans(c: char)
    ensures IsBlank(c) <==> c as int in {
      0x09, 0x0A, 0x0B, 0x0C, 0x0D, 0x20, 0xA0, 0x1680, 0x2000, 0x2001, 0x2002, 0x2003, 0x2004, 0x2005, 0x2006,
      0x2007, 0x2008, 0x2009, 0x200A, 0x2028, 0x2029, 0x202F, 0x205F, 0x3000, 0xFEFF}
  {
  }
}
