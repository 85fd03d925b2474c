/**
 * The comment editor of the `PersonalityInput` component: a list of one to
 * ten comment strings that the user grows, shrinks and edits, and the submit
 * check that filters out blank entries and rejects the batch on two error
 * conditions. A toast is modelled as the message it shows; `onSubmit` as the
 * list it receives.
 *
 * Strings are sequences of Unicode scalar values; JavaScript's `.length`
 * counts UTF-16 code units, so a character outside the Basic Multilingual
 * Plane counts twice.
 */
module PersonalityInput {

  import opened Wrappers

  /** The most comments the editor holds. */
  const MaxComments: nat := 10

  /** The least length of a submitted comment. */
  const MinCommentLength: nat := 10

  const TooManyComments: string := "Maximum 10 comments allowed"
  const NoComments: string := "Please enter at least one comment"
  const ShortComment: string := "Each comment should be at least 10 characters"

  /** JavaScript's WhiteSpace and LineTerminator characters, which `trim` removes. */
  predicate IsJsSpace(c: char) {
    var u := c as int;
    || 0x09 <= u <= 0x0D || u == 0x20 || u == 0xA0 || u == 0x1680
    || 0x2000 <= u <= 0x200A || u == 0x2028 || u == 0x2029 || u == 0x202F
    || u == 0x205F || u == 0x3000 || u == 0xFEFF
  }

  /** Every character is JavaScript whitespace. */
  predicate IsBlank(s: string) {
    forall i :: 0 <= i < |s| ==> IsJsSpace(s[i])
  }

  /** Number of JavaScript whitespace characters at the front of `s`. */
  function LeadingJsSpaces(s: string): (k: nat)
    ensures k <= |s|
    ensures forall i :: 0 <= i < k ==> IsJsSpace(s[i])
    ensures k < |s| ==> !IsJsSpace(s[k])
  {
    if s != [] && IsJsSpace(s[0]) then 1 + LeadingJsSpaces(s[1..]) else 0
  }

  /** `e` moved back over JavaScript whitespace, but not below `lo`. */
  function BackOverJsSpaces(s: string, lo: nat, e: nat): (r: nat)
    requires lo <= e <= |s|
    ensures lo <= r <= e
    ensures forall i :: r <= i < e ==> IsJsSpace(s[i])
    ensures lo < r ==> !IsJsSpace(s[r - 1])
    decreases e
  {
    if lo < e && IsJsSpace(s[e - 1]) then BackOverJsSpaces(s, lo, e - 1) else e
  }

  /** `String.prototype.trim`: the slice of `s` left after its leading
      whitespace, ending before its trailing whitespace. */
  function JsTrim(s: string): (r: string)
    ensures r == [] || (!IsJsSpace(r[0]) && !IsJsSpace(r[|r| - 1]))
    ensures LeadingJsSpaces(s) + |r| <= |s|
    ensures r == s[LeadingJsSpaces(s)..LeadingJsSpaces(s) + |r|]
    ensures forall i :: 0 <= i < LeadingJsSpaces(s) ==> IsJsSpace(s[i])
    ensures forall i :: LeadingJsSpaces(s) + |r| <= i < |s| ==> IsJsSpace(s[i])
  {
    var k := LeadingJsSpaces(s);
    s[k..BackOverJsSpaces(s, k, |s|)]
  }

  /** `c.trim().length > 0` holds exactly for a comment that is not all whitespace. */
  lemma TrimmedEmptyIffBlank(s: string)
    ensures |JsTrim(s)| == 0 <==> IsBlank(s)
  {
    var k := LeadingJsSpaces(s);
    if |JsTrim(s)| > 0 {
      assert JsTrim(s)[0] == s[k];
    }
  }

  /** A character outside the Basic Multilingual Plane, two UTF-16 code units long. */
  predicate IsSupplementary(c: char) {
    c as int > 0xFFFF
  }

  /** JavaScript's `.length`: the number of UTF-16 code units, one per
      character and one more per supplementary character; a text within the
      Basic Multilingual Plane counts its characters. */
  function Utf16Length(s: string): (n: nat)
    ensures n == |s| + |Filter(IsSupplementary, s)|
    ensures |s| <= n <= 2 * |s|
    ensures (forall i :: 0 <= i < |s| ==> !IsSupplementary(s[i])) ==> n == |s|
  {
    FilterEmptyIff(IsSupplementary, s);
    if s == [] then 0
    else Utf16Length(s[..|s| - 1]) + (if s[|s| - 1] as int > 0xFFFF then 2 else 1)
  }

  /** `c.trim().length > 0`. */
  predicate HasText(c: string) {
    |JsTrim(c)| > 0
  }

  /** `Array.prototype.filter`: the entries satisfying `keep`, in order. */
  function Filter<T>(keep: T -> bool, s: seq<T>): (r: seq<T>)
    ensures |r| <= |s|
    ensures forall i :: 0 <= i < |r| ==> keep(r[i])
  {
    if s == [] then []
    else Filter(keep, s[..|s| - 1]) + (if keep(s[|s| - 1]) then [s[|s| - 1]] else [])
  }

  /** `comments.filter(c => c.trim().length > 0)`. */
  function KeepNonBlank(comments: seq<string>): (kept: seq<string>)
    ensures |kept| <= |comments|
    ensures forall i :: 0 <= i < |kept| ==> HasText(kept[i])
  {
    Filter(HasText, comments)
  }

  /** `a` is `b` with some entries left out, the rest in their original order. */
  predicate IsSubsequence<T(==)>(a: seq<T>, b: seq<T>)
    decreases |b|
  {
    if a == [] then true
    else if b == [] then false
    else if a[|a| - 1] == b[|b| - 1] then IsSubsequence(a[..|a| - 1], b[..|b| - 1])
    else IsSubsequence(a, b[..|b| - 1])
  }

  /** A subsequence of `b` is one of `b` extended at the end. */
  lemma {:induction false} SubsequenceExtend<T>(a: seq<T>, b: seq<T>, x: T)
    requires IsSubsequence(a, b)
    ensures IsSubsequence(a, b + [x])
    decreases |b|, 1
  {
    if a != [] {
      var bx := b + [x];
      assert bx[..|bx| - 1] == b;
      if a[|a| - 1] == x {
        SubsequenceDropLast(a, b);
      }
    }
  }

  /** Dropping the last entry of a subsequence leaves a subsequence. */
  lemma {:induction false} SubsequenceDropLast<T>(a: seq<T>, b: seq<T>)
    requires a != [] && IsSubsequence(a, b)
    ensures IsSubsequence(a[..|a| - 1], b)
    decreases |b|, 0
  {
    var a' := a[..|a| - 1];
    var b' := b[..|b| - 1];
    assert b == b' + [b[|b| - 1]];
    if a[|a| - 1] == b[|b| - 1] {
      SubsequenceExtend(a', b', b[|b| - 1]);
    } else {
      SubsequenceDropLast(a, b');
      SubsequenceExtend(a', b', b[|b| - 1]);
    }
  }

  /** A filter keeps its entries in their original order: it is a
      subsequence of the list. */
  lemma {:induction false} FilterIsSubsequence<T>(keep: T -> bool, s: seq<T>)
    ensures IsSubsequence(Filter(keep, s), s)
  {
    if s != [] {
      var init := s[..|s| - 1];
      var x := s[|s| - 1];
      FilterIsSubsequence(keep, init);
      var r := Filter(keep, s);
      assert s == init + [x];
      if keep(x) {
        assert r[..|r| - 1] == Filter(keep, init);
      } else {
        assert r == Filter(keep, init);
        SubsequenceExtend(r, init, x);
      }
    }
  }

  /** A filter keeps each entry satisfying `keep` as many times as it occurs
      and no other entry at all. */
  lemma {:induction false} FilterCounts<T>(keep: T -> bool, s: seq<T>)
    ensures forall x :: multiset(Filter(keep, s))[x] == if keep(x) then multiset(s)[x] else 0
  {
    if s != [] {
      var init := s[..|s| - 1];
      FilterCounts(keep, init);
      assert s == init + [s[|s| - 1]];
    }
  }

  /** A filter keeps nothing exactly when no entry satisfies `keep`. */
  lemma {:induction false} FilterEmptyIff<T>(keep: T -> bool, s: seq<T>)
    ensures Filter(keep, s) == [] <==> forall i :: 0 <= i < |s| ==> !keep(s[i])
  {
    if s != [] {
      var init := s[..|s| - 1];
      FilterEmptyIff(keep, init);
      assert forall i :: 0 <= i < |init| ==> init[i] == s[i];
    }
  }

  /** `handleSubmit`'s filter keeps, in their original order, each non-blank
      comment as many times as it occurs and no blank comment. */
  lemma KeepNonBlankIsFilter(comments: seq<string>)
    ensures IsSubsequence(KeepNonBlank(comments), comments)
    ensures forall c :: multiset(KeepNonBlank(comments))[c] == if IsBlank(c) then 0 else multiset(comments)[c]
  {
    FilterIsSubsequence(HasText, comments);
    FilterCounts(HasText, comments);
    forall c ensures multiset(KeepNonBlank(comments))[c] == if IsBlank(c) then 0 else multiset(comments)[c] {
      TrimmedEmptyIffBlank(c);
    }
  }

  /** What `handleSubmit` does: show an error toast, or call `onSubmit`. */
  datatype SubmitOutcome = Rejected(message: string) | Submitted(comments: seq<string>)

  /** `handleSubmit` on a list of comments. */
  function Submit(comments: seq<string>): (r: SubmitOutcome)
    ensures r == Rejected(NoComments) <==> KeepNonBlank(comments) == []
    ensures r == Rejected(ShortComment) <==>
      KeepNonBlank(comments) != [] && exists c :: c in KeepNonBlank(comments) && Utf16Length(c) < MinCommentLength
    ensures r.Submitted? <==>
      KeepNonBlank(comments) != [] && forall c :: c in KeepNonBlank(comments) ==> Utf16Length(c) >= MinCommentLength
    ensures r.Submitted? ==> r.comments == KeepNonBlank(comments)
  {
    var validComments := KeepNonBlank(comments);
    if |validComments| == 0 then Rejected(NoComments)
    else if exists c :: c in validComments && Utf16Length(c) < MinCommentLength then Rejected(ShortComment)
    else Submitted(validComments)
  }

  /** What `onSubmit` receives: a non-empty list of non-blank comments, each of
      at least ten code units, drawn in order from the editor's list and so no
      longer than it. */
  lemma SubmittedBatch(comments: seq<string>)
    requires Submit(comments).Submitted?
    ensures var sent := Submit(comments).comments;
      && 0 < |sent| <= |comments|
      && IsSubsequence(sent, comments)
      && forall c :: c in sent ==> !IsBlank(c) && Utf16Length(c) >= MinCommentLength
  {
    FilterIsSubsequence(HasText, comments);
    var sent := Submit(comments).comments;
    forall c | c in sent ensures !IsBlank(c) {
      TrimmedEmptyIffBlank(c);
    }
  }

  /** Nothing is kept exactly when every comment is blank. */
  lemma NothingKeptIffAllBlank(comments: seq<string>)
    ensures KeepNonBlank(comments) == [] <==> forall i :: 0 <= i < |comments| ==> IsBlank(comments[i])
  {
    FilterEmptyIff(HasText, comments);
    forall i | 0 <= i < |comments| ensures HasText(comments[i]) <==> !IsBlank(comments[i]) {
      TrimmedEmptyIffBlank(comments[i]);
    }
  }

  /** The "Please enter at least one comment" toast appears exactly when every
      comment is blank. */
  lemma NoCommentsIffAllBlank(comments: seq<string>)
    ensures Submit(comments) == Rejected(NoComments) <==>
      forall i :: 0 <= i < |comments| ==> IsBlank(comments[i])
  {
    NothingKeptIffAllBlank(comments);
  }

  /** `comments.filter((_, i) => i !== index)`. */
  function WithoutIndex<T>(s: seq<T>, index: int): (r: seq<T>)
    ensures |r| == if 0 <= index < |s| then |s| - 1 else |s|
    ensures forall i :: 0 <= i < |r| ==> r[i] in s
  {
    if s == [] then []
    else WithoutIndex(s[..|s| - 1], index) + (if |s| - 1 != index then [s[|s| - 1]] else [])
  }

  /** Filtering by index removes exactly the entry at `index` and keeps the
      others in order; an index outside the list removes nothing. */
  lemma {:induction false} WithoutIndexRemovesOne<T>(s: seq<T>, index: int)
    ensures 0 <= index < |s| ==> WithoutIndex(s, index) == s[..index] + s[index + 1..]
    ensures !(0 <= index < |s|) ==> WithoutIndex(s, index) == s
  {
    if s != [] {
      var init := s[..|s| - 1];
      WithoutIndexRemovesOne(init, index);
      if index == |s| - 1 {
        assert s[..index] == init;
      } else if 0 <= index < |s| - 1 {
        var last := [s[|s| - 1]];
        assert WithoutIndex(s, index) == WithoutIndex(init, index) + last;
        assert init[..index] == s[..index];
        assert init[index + 1..] + last == s[index + 1..];
        calc {
          WithoutIndex(init, index) + last;
          (s[..index] + init[index + 1..]) + last;
          s[..index] + (init[index + 1..] + last);
        }
      } else {
        assert init + [s[|s| - 1]] == s;
      }
    }
  }

  /** The component's `comments` state. */
  class CommentEditor {

    var comments: seq<string>

    /** Between one and ten comments. */
    predicate Valid()
      reads this
    {
      1 <= |comments| <= MaxComments
    }

    /** `useState([""])`: one empty comment. */
    constructor ()
      ensures comments == [""]
      ensures Valid()
    {
      comments := [""];
    }

    /** `addComment`: append an empty comment below ten, otherwise leave the
        list unchanged and show the "Maximum 10 comments allowed" toast. */
    method AddComment() returns (toast: Option<string>)
      modifies this
      ensures old(|comments|) < MaxComments ==> comments == old(comments) + [""] && toast == None
      ensures old(|comments|) >= MaxComments ==> comments == old(comments) && toast == Some(TooManyComments)
      ensures old(Valid()) ==> Valid()
    {
      if |comments| < MaxComments {
        comments := comments + [""];
        toast := None;
      } else {
        toast := Some(TooManyComments);
      }
    }

    /** `removeComment`: drop the entry at `index` when more than one remains;
        the others keep their order, and the list never drops below one. */
    method RemoveComment(index: int)
      modifies this
      ensures old(|comments|) > 1 && 0 <= index < old(|comments|) ==>
        comments == old(comments[..index] + comments[index + 1..])
      ensures old(|comments|) <= 1 || !(0 <= index < old(|comments|)) ==> comments == old(comments)
      ensures old(Valid()) ==> Valid()
    {
      if |comments| > 1 {
        WithoutIndexRemovesOne(comments, index);
        comments := WithoutIndex(comments, index);
      }
    }

    /** `updateComment`: replace the entry at `index`; the length and every
        other entry are unchanged. */
    method UpdateComment(index: int, value: string)
      requires 0 <= index < |comments|
      modifies this
      ensures comments == old(comments)[index := value]
      ensures |comments| == old(|comments|)
      ensures forall i :: 0 <= i < |comments| && i != index ==> comments[i] == old(comments[i])
      ensures old(Valid()) ==> Valid()
    {
      var newComments := comments;
      newComments := newComments[index := value];
      comments := newComments;
    }

    /** `handleSubmit` on the current list. */
    function HandleSubmit(): (r: SubmitOutcome)
      reads this
      ensures Valid() && r.Submitted? ==> 0 < |r.comments| <= MaxComments
    {
      Submit(comments)
    }
  }
}
