/**
 * The text `Vector::print` writes: the elements, each in its stream form,
 * separated by single spaces, between brackets and followed by a newline;
 * nothing at all for an empty vector. `Split` reads such a text back.
 */
module Render {

  /** Each element in its stream form, as `show` gives it. */
  function Shown<T>(elems: seq<T>, show: T -> string): (words: seq<string>)
    ensures |words| == |elems|
    ensures forall i :: 0 <= i < |elems| ==> words[i] == show(elems[i])
  {
    seq(|elems|, i requires 0 <= i < |elems| => show(elems[i]))
  }

  /** The words with one space between neighbours, built left to right as the output loop does. */
  function Join(words: seq<string>): string
  {
    if |words| == 0 then ""
    else if |words| == 1 then words[0]
    else Join(words[..|words| - 1]) + " " + words[|words| - 1]
  }

  /** The full text printed for a vector with elements `elems`. */
  function Rendered<T>(elems: seq<T>, show: T -> string): string
  {
    if |elems| == 0 then "" else "[" + Join(Shown(elems, show)) + "]\n"
  }

  /** No word contains the separator. */
  predicate SpaceFree(words: seq<string>)
  {
    forall i :: 0 <= i < |words| ==> ' ' !in words[i]
  }

  /** The position of the first space in `s`, or `|s|` when there is none. */
  function FirstSpace(s: string): (k: nat)
    ensures k <= |s|
    ensures forall j :: 0 <= j < k ==> s[j] != ' '
    ensures k < |s| ==> s[k] == ' '
  {
    if s == [] || s[0] == ' ' then 0 else 1 + FirstSpace(s[1..])
  }

  /** The fields of `s` between single spaces. */
  function Split(s: string): (fields: seq<string>)
    ensures |fields| >= 1
    decreases |s|
  {
    var k := FirstSpace(s);
    if k == |s| then [s] else [s[..k]] + Split(s[k + 1..])
  }

  /** Joining peels off from the front as well as from the back. */
  lemma {:induction false} JoinFront(words: seq<string>)
    requires |words| >= 2
    ensures Join(words) == words[0] + " " + Join(words[1..])
  {
    var n := |words|;
    if n > 2 {
      JoinFront(words[..n - 1]);
      assert words[..n - 1][1..] == words[1..][..n - 2];
      assert words[..n - 1][0] == words[0];
    } else {
      assert words[1..] == [words[1]];
    }
  }

  /** Splitting undoes joining, as long as no word holds a space. */
  lemma {:induction false} SplitJoin(words: seq<string>)
    requires |words| >= 1
    requires SpaceFree(words)
    ensures Split(Join(words)) == words
  {
    var w := words[0];
    if |words| == 1 {
      assert FirstSpace(w) == |w|;
    } else {
      JoinFront(words);
      var rest := Join(words[1..]);
      var s := w + " " + rest;
      assert FirstSpace(s) == |w| by {
        assert forall j :: 0 <= j < |w| ==> s[j] == w[j];
        assert s[|w|] == ' ';
      }
      assert s[..|w|] == w;
      assert s[|w| + 1..] == rest;
      SplitJoin(words[1..]);
      assert words == [w] + words[1..];
    }
  }

  /**
   * The printed text of a non-empty vector is bracketed, ends in a newline,
   * and its inside splits back into the shown elements. An empty vector
   * prints nothing.
   */
  lemma RenderedRoundTrip<T>(elems: seq<T>, show: T -> string)
    requires SpaceFree(Shown(elems, show))
    ensures Rendered(elems, show) == "" <==> elems == []
    ensures elems != [] ==>
      var text := Rendered(elems, show);
      |text| >= 3 && text[0] == '[' && text[|text| - 2..] == "]\n" &&
      Split(text[1..|text| - 2]) == Shown(elems, show)
  {
    if elems != [] {
      var body := Join(Shown(elems, show));
      var text := "[" + body + "]\n";
      assert text[1..|text| - 2] == body;
      SplitJoin(Shown(elems, show));
    }
  }

  /** The decimal text of a natural number, most significant digit first. */
  function Digits(n: nat): (s: string)
    ensures |s| >= 1
    ensures forall j :: 0 <= j < |s| ==> '0' <= s[j] <= '9'
  {
    var last := [(48 + n % 10) as char];
    if n < 10 then last else Digits(n / 10) + last
  }

  /** The text `std::ostream` writes for an `int`: an optional minus sign, then the digits. */
  function Decimal(n: int): (s: string)
    ensures |s| >= 1 && ' ' !in s
  {
    if n < 0 then "-" + Digits(-n) else Digits(n)
  }
}
