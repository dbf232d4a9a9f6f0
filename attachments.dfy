/**
 * The string logic of handleFileChange (Frontend/src/App.jsx:189-196): the chosen file
 * names are joined with ", ", wrapped in brackets and appended to the input box.
 */
module Attachments {

  const Separator: string := ", "

  /** The summed length of the names. */
  function TotalLength(names: seq<string>): nat {
    if names == [] then 0 else |names[0]| + TotalLength(names[1..])
  }

  /** names.join(', '): the names in order, with one separator between neighbours. */
  function Join(names: seq<string>): (r: string)
    ensures names == [] ==> r == []
    ensures names != [] ==> |r| == TotalLength(names) + |Separator| * (|names| - 1)
    ensures names != [] ==> r[..|names[0]|] == names[0]
  {
    if names == [] then []
    else if |names| == 1 then names[0]
    else names[0] + Separator + Join(names[1..])
  }

  /** A separator starts at index i of s. */
  predicate SepAt(s: string, i: int) {
    0 <= i && i + 1 < |s| && s[i] == ',' && s[i + 1] == ' '
  }

  /** s contains the separator somewhere. */
  predicate HasSep(s: string) {
    exists i :: 0 <= i < |s| && SepAt(s, i)
  }

  /** The first index at or after `from` where a separator starts, or |s| when there is none. */
  function FirstSep(s: string, from: nat): (k: nat)
    requires from <= |s|
    ensures from <= k <= |s|
    ensures k < |s| ==> SepAt(s, k)
    ensures forall i :: from <= i < k ==> !SepAt(s, i)
    decreases |s| - from
  {
    if from == |s| then |s|
    else if SepAt(s, from) then from
    else FirstSep(s, from + 1)
  }

  /** Cuts s at every separator, left to right; the inverse of Join on names free of separators. */
  function Split(s: string): (r: seq<string>)
    ensures r != []
    ensures forall j :: 0 <= j < |r| ==> !HasSep(r[j])
    decreases |s|
  {
    var k := FirstSep(s, 0);
    if k == |s| then
      assert !HasSep(s) by {
        forall i | SepAt(s, i) ensures false {
        }
      }
      [s]
    else
      assert !HasSep(s[..k]) by {
        forall i | SepAt(s[..k], i) ensures false {
          assert SepAt(s, i);
        }
      }
      [s[..k]] + Split(s[k + 2..])
  }

  /** Splitting the joined names gives back the names, provided none of them contains ", ". */
  lemma {:induction false} SplitJoin(names: seq<string>)
    requires names != []
    requires forall j :: 0 <= j < |names| ==> !HasSep(names[j])
    ensures Split(Join(names)) == names
  {
    var s := Join(names);
    var n0 := names[0];
    if |names| == 1 {
      assert s == n0;
      var k := FirstSep(s, 0);
      assert k < |s| ==> SepAt(n0, k);
    } else {
      var rest := Join(names[1..]);
      assert s == n0 + Separator + rest;
      assert SepAt(s, |n0|);
      forall i | 0 <= i < |n0|
        ensures !SepAt(s, i)
      {
        if i + 1 < |n0| {
          if SepAt(s, i) {
            assert SepAt(n0, i);
          }
        } else {
          assert s[i + 1] == ',';
        }
      }
      var k := FirstSep(s, 0);
      assert k == |n0|;
      assert s[..k] == n0;
      assert s[k + 2..] == rest;
      SplitJoin(names[1..]);
      assert Split(s) == [n0] + names[1..];
    }
  }

  /** Joining the pieces of any string gives the string back: Split loses nothing. */
  lemma {:induction false} JoinSplit(s: string)
    ensures Join(Split(s)) == s
    decreases |s|
  {
    var k := FirstSep(s, 0);
    if k < |s| {
      var rest := s[k + 2..];
      var pieces := Split(rest);
      JoinSplit(rest);
      assert Split(s) == [s[..k]] + pieces;
      assert ([s[..k]] + pieces)[1..] == pieces;
      assert Join(Split(s)) == s[..k] + Separator + Join(pieces);
      assert s == s[..k] + Separator + rest;
    }
  }

  /** Index of the opening bracket in the input after attaching: after the old input and its space, if any. */
  function Bracket(prev: string): nat {
    if prev == [] then 0 else |prev| + 1
  }

  /**
   * setInput(prev => (prev ? prev + ' ' : '') + `[${names}]`), skipped when no file is chosen.
   * The old input is kept as a prefix and the result ends with the closing bracket.
   */
  function Attach(prev: string, names: seq<string>): (r: string)
    ensures names == [] ==> r == prev
    ensures names != [] ==> |r| >= |prev| + 2 && r[..|prev|] == prev && r[|r| - 1] == ']'
    ensures names != [] && prev != [] ==> r[|prev|] == ' '
  {
    if names == [] then prev
    else (if prev != [] then prev + " " else []) + "[" + Join(names) + "]"
  }

  /**
   * The shape of the input after attaching any non-empty list of names: the old input and
   * its space, if any, then "[", the joined names and "]".
   */
  lemma AttachShape(prev: string, names: seq<string>)
    requires names != []
    ensures var r := Attach(prev, names); var b := Bracket(prev);
      b < |r| - 1 && r[..b] == (if prev == [] then [] else prev + " ")
      && r[b] == '[' && r[b + 1..|r| - 1] == Join(names)
  {
    var r := Attach(prev, names);
    var lead: string := if prev != [] then prev + " " else [];
    assert r == lead + "[" + Join(names) + "]";
    assert |lead| == Bracket(prev);
    assert r[Bracket(prev) + 1..|r| - 1] == Join(names);
  }

  /**
   * The attached names can be read back: the text between the brackets that Attach added
   * splits into exactly the chosen names (when none of them contains ", ").
   */
  lemma AttachRoundTrip(prev: string, names: seq<string>)
    requires names != []
    requires forall j :: 0 <= j < |names| ==> !HasSep(names[j])
    ensures var r := Attach(prev, names); var b := Bracket(prev);
      b < |r| - 1 && r[..b] == (if prev == [] then [] else prev + " ")
      && r[b] == '[' && r[b + 1..|r| - 1] == Join(names)
      && Split(r[b + 1..|r| - 1]) == names
  {
    AttachShape(prev, names);
    SplitJoin(names);
  }
}
