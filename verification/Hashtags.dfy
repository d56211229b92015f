/** `scan_hashtags` of `src/stream.rs`. The Unicode tables are parameters: `alnum` says which
    characters are alphanumeric and `lower` is the library's lower-casing. */
module Hashtags {

  predicate IsTagChar(alnum: char -> bool, c: char) {
    alnum(c) || c == '_'
  }

  /** A tag starts at a `#` that no alphanumeric precedes and that a tag character follows. */
  predicate StartsTag(alnum: char -> bool, text: string, i: nat) {
    && i + 1 < |text| && text[i] == '#'
    && (i == 0 || !alnum(text[i - 1]))
    && IsTagChar(alnum, text[i + 1])
  }

  /** The end of the longest run of tag characters from `j` on. */
  function RunEnd(alnum: char -> bool, text: string, j: nat): (e: nat)
    requires j <= |text|
    ensures j <= e <= |text|
    decreases |text| - j
  {
    if j < |text| && IsTagChar(alnum, text[j]) then RunEnd(alnum, text, j + 1) else j
  }

  /** The tags that start at or after `i`, looking at every position. */
  function Tags(alnum: char -> bool, lower: string -> string, text: string, i: nat): seq<string>
    requires i <= |text|
    decreases |text| - i
  {
    if i == |text| then []
    else if StartsTag(alnum, text, i) then
      [lower(text[i + 1..RunEnd(alnum, text, i + 1)])] + Tags(alnum, lower, text, i + 1)
    else
      Tags(alnum, lower, text, i + 1)
  }

  /** The run is maximal: tag characters throughout, and none at its end. */
  lemma {:induction false} RunIsMaximal(alnum: char -> bool, text: string, j: nat)
    requires j <= |text|
    ensures var e := RunEnd(alnum, text, j);
            && (forall k :: j <= k < e ==> alnum(text[k]) || text[k] == '_')
            && (e < |text| ==> !alnum(text[e]) && text[e] != '_')
    decreases |text| - j
  {
    if j < |text| && IsTagChar(alnum, text[j]) {
      RunIsMaximal(alnum, text, j + 1);
    }
  }

  /** Where no tag starts, nothing is lost by skipping. */
  lemma {:induction false} SkippingLosesNothing(alnum: char -> bool, lower: string -> string, text: string,
                                                i: nat, j: nat)
    requires i <= j <= |text|
    requires forall k :: i <= k < j ==> !StartsTag(alnum, text, k)
    ensures Tags(alnum, lower, text, i) == Tags(alnum, lower, text, j)
    decreases j - i
  {
    if i < j {
      SkippingLosesNothing(alnum, lower, text, i + 1, j);
    }
  }

  /** The scanner, which jumps to the end of each run, finds the tags that looking at every
      position finds. */
  method ScanHashtags(alnum: char -> bool, lower: string -> string, text: string) returns (out: seq<string>)
    requires !alnum('#')
    ensures out == Tags(alnum, lower, text, 0)
  {
    out := [];
    var i := 0;
    while i < |text|
      invariant i <= |text|
      invariant out + Tags(alnum, lower, text, i) == Tags(alnum, lower, text, 0)
    {
      if text[i] == '#' && (i == 0 || !alnum(text[i - 1])) {
        var start := i + 1;
        var j := start;
        while j < |text| && (alnum(text[j]) || text[j] == '_')
          invariant start <= j <= |text|
          invariant RunEnd(alnum, text, j) == RunEnd(alnum, text, start)
        {
          j := j + 1;
        }
        RunIsMaximal(alnum, text, start);
        SkippingLosesNothing(alnum, lower, text, start, j);
        if j > start {
          out := out + [lower(text[start..j])];
        }
        i := j;
      } else {
        i := i + 1;
      }
    }
  }

  /** The output has one tag for each position where one starts. */
  function Starts(alnum: char -> bool, text: string, i: nat): seq<nat>
    requires i <= |text|
    decreases |text| - i
  {
    if i == |text| then []
    else if StartsTag(alnum, text, i) then [i] + Starts(alnum, text, i + 1)
    else Starts(alnum, text, i + 1)
  }

  lemma {:induction false} StartsAreAll(alnum: char -> bool, text: string, i: nat, p: nat)
    requires i <= |text|
    ensures p in Starts(alnum, text, i) <==>
            && i <= p && p + 1 < |text| && text[p] == '#'
            && (p > 0 ==> !alnum(text[p - 1]))
            && (alnum(text[p + 1]) || text[p + 1] == '_')
    decreases |text| - i
  {
    if i < |text| {
      StartsAreAll(alnum, text, i + 1, p);
      assert p in Starts(alnum, text, i) <==> p in Starts(alnum, text, i + 1) || (p == i && StartsTag(alnum, text, i));
    }
  }

  lemma {:induction false} OneTagEach(alnum: char -> bool, lower: string -> string, text: string, i: nat)
    requires i <= |text|
    ensures |Starts(alnum, text, i)| == |Tags(alnum, lower, text, i)|
    decreases |text| - i
  {
    if i < |text| {
      OneTagEach(alnum, lower, text, i + 1);
    }
  }

  /** Tag `k` is the lowercased maximal run after the `k`-th start. */
  lemma {:induction false} TagsInOrder(alnum: char -> bool, lower: string -> string, text: string, i: nat, k: nat)
    requires i <= |text| && k < |Starts(alnum, text, i)|
    ensures |Starts(alnum, text, i)| == |Tags(alnum, lower, text, i)|
    ensures var p := Starts(alnum, text, i)[k];
            && i <= p && StartsTag(alnum, text, p)
            && Tags(alnum, lower, text, i)[k] == lower(text[p + 1..RunEnd(alnum, text, p + 1)])
    decreases |text| - i
  {
    OneTagEach(alnum, lower, text, i);
    if !StartsTag(alnum, text, i) {
      TagsInOrder(alnum, lower, text, i + 1, k);
    } else if k > 0 {
      TagsInOrder(alnum, lower, text, i + 1, k - 1);
    }
  }

  /** The starts increase. */
  lemma {:induction false} StartsIncrease(alnum: char -> bool, text: string, i: nat, k: nat)
    requires i <= |text| && k + 1 < |Starts(alnum, text, i)|
    ensures Starts(alnum, text, i)[k] < Starts(alnum, text, i)[k + 1]
    decreases |text| - i
  {
    var later := Starts(alnum, text, i + 1);
    if !StartsTag(alnum, text, i) {
      StartsIncrease(alnum, text, i + 1, k);
    } else if k > 0 {
      StartsIncrease(alnum, text, i + 1, k - 1);
    } else {
      StartsAreAll(alnum, text, i + 1, later[0]);
    }
  }
}
