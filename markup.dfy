/** The four answer labels offered with each track (`genrate_markup`).

    Four languages are drawn without replacement from a copy of the list;
    if the correct language was not drawn, it overwrites one of the four
    slots. The labels are read row by row as a 2x2 keyboard. */
module Markup {
  import opened LanguageDetection

  /** Number of buttons on the keyboard. */
  const Buttons := 4

  /** `picks[k]` is a valid `randint(0, len(copy) - 1)` result for the
      k-th draw, when the copy has already lost `k` entries. */
  predicate ValidPicks(n: int, picks: seq<int>) {
    forall k :: 0 <= k < |picks| ==> 0 <= picks[k] < n - k
  }

  /** The random draws of one keyboard over `languages`: four picks and
      the slot that the correct language may overwrite (`randint(0, 3)`). */
  predicate KeyboardDraws(languages: seq<string>, picks: seq<int>, slot: int) {
    |picks| == Buttons && ValidPicks(|languages|, picks) && 0 <= slot < Buttons
  }

  /** `list.pop(i)`. */
  function RemoveAt(s: seq<string>, i: int): (r: seq<string>)
    requires 0 <= i < |s|
    ensures |r| == |s| - 1
    ensures forall x :: x in r ==> x in s
  {
    s[..i] + s[i + 1..]
  }

  /** The entries drawn by popping `pool[picks[0]]`, then `picks[1]` from
      what is left, and so on. */
  function Sample(pool: seq<string>, picks: seq<int>): (drawn: seq<string>)
    requires ValidPicks(|pool|, picks)
    ensures |drawn| == |picks|
    decreases |picks|
  {
    if picks == [] then []
    else
      assert ValidPicks(|pool| - 1, picks[1..]) by {
        forall k | 0 <= k < |picks[1..]| ensures 0 <= picks[1..][k] < |pool| - 1 - k {
          assert picks[1..][k] == picks[k + 1];
        }
      }
      [pool[picks[0]]] + Sample(RemoveAt(pool, picks[0]), picks[1..])
  }

  /** One draw: `pool[picks[i]]` is popped, and the later picks draw from
      what is left. */
  lemma SampleStep(pool: seq<string>, picks: seq<int>, i: int)
    requires 0 <= i < |picks| && ValidPicks(|pool|, picks[i..])
    ensures 0 <= picks[i] < |pool| && ValidPicks(|pool| - 1, picks[i + 1..])
    ensures Sample(pool, picks[i..]) == [pool[picks[i]]] + Sample(RemoveAt(pool, picks[i]), picks[i + 1..])
  {
    var rest := picks[i..];
    assert rest[0] == picks[i];
    assert rest[1..] == picks[i + 1..];
    var later := picks[i + 1..];
    forall k | 0 <= k < |later|
      ensures 0 <= later[k] < |pool| - 1 - k
    {
      assert later[k] == rest[k + 1];
    }
  }

  /** The loop of `genrate_markup` after `i` draws: the labels `drawn` so
      far, then the rest drawn from `copy`, make up `whole`; one more draw
      from `copy` keeps it so. */
  lemma DrawStep(copy: seq<string>, drawn: seq<string>, picks: seq<int>, i: int, whole: seq<string>)
    requires 0 <= i < |picks| && ValidPicks(|copy|, picks[i..])
    requires drawn + Sample(copy, picks[i..]) == whole
    ensures 0 <= picks[i] < |copy| && ValidPicks(|copy| - 1, picks[i + 1..])
    ensures (drawn + [copy[picks[i]]]) + Sample(RemoveAt(copy, picks[i]), picks[i + 1..]) == whole
  {
    SampleStep(copy, picks, i);
    var head, tail := [copy[picks[i]]], Sample(RemoveAt(copy, picks[i]), picks[i + 1..]);
    assert (drawn + head) + tail == drawn + (head + tail);
  }

  /** The labels of the keyboard for `correct`, drawn from `languages`. */
  function Keyboard(languages: seq<string>, correct: string, picks: seq<int>, slot: int): (kb: seq<string>)
    requires KeyboardDraws(languages, picks, slot)
    ensures |kb| == Buttons && correct in kb
  {
    var drawn := Sample(languages, picks);
    if correct in drawn then drawn
    else
      assert drawn[slot := correct][slot] == correct;
      drawn[slot := correct]
  }

  lemma {:induction false} RemoveAtKeepsDistinct(s: seq<string>, i: int)
    requires 0 <= i < |s| && Distinct(s)
    ensures Distinct(RemoveAt(s, i)) && s[i] !in RemoveAt(s, i)
  {
    var r := RemoveAt(s, i);
    forall a, b | 0 <= a < b < |r| ensures r[a] != r[b] {
      var a', b' := if a < i then a else a + 1, if b < i then b else b + 1;
      assert r[a] == s[a'] && r[b] == s[b'];
    }
    forall a | 0 <= a < |r| ensures r[a] != s[i] {
      assert r[a] == s[if a < i then a else a + 1];
    }
  }

  /** Drawing without replacement from a list of distinct entries yields
      one entry per pick, never the same entry twice, all from the list. */
  lemma {:induction false} SampleWithoutReplacement(pool: seq<string>, picks: seq<int>)
    requires ValidPicks(|pool|, picks) && Distinct(pool)
    ensures Distinct(Sample(pool, picks))
    ensures forall x :: x in Sample(pool, picks) ==> x in pool
  {
    if picks != [] {
      var rest := RemoveAt(pool, picks[0]);
      assert ValidPicks(|rest|, picks[1..]) by {
        forall k | 0 <= k < |picks[1..]| ensures 0 <= picks[1..][k] < |rest| - k {
          assert picks[1..][k] == picks[k + 1];
        }
      }
      RemoveAtKeepsDistinct(pool, picks[0]);
      SampleWithoutReplacement(rest, picks[1..]);
      var tail := Sample(rest, picks[1..]);
      assert Sample(pool, picks) == [pool[picks[0]]] + tail;
      assert pool[picks[0]] !in tail;
    }
  }

  /** Every keyboard has four different labels, the correct language among
      them; each other label is an entry of `languages`, and it is the one drawn
      for that slot. */
  lemma KeyboardOffersCorrect(languages: seq<string>, correct: string, picks: seq<int>, slot: int)
    requires KeyboardDraws(languages, picks, slot) && Distinct(languages)
    ensures var kb := Keyboard(languages, correct, picks, slot);
      && |kb| == Buttons
      && Distinct(kb)
      && correct in kb
      && forall i :: 0 <= i < Buttons && kb[i] != correct ==>
           kb[i] in languages && kb[i] == Sample(languages, picks)[i]
  {
    SampleWithoutReplacement(languages, picks);
    var drawn := Sample(languages, picks);
    if correct !in drawn {
      var kb := drawn[slot := correct];
      forall a, b | 0 <= a < b < |kb| ensures kb[a] != kb[b] {
        if a != slot && b != slot {
          assert kb[a] == drawn[a] && kb[b] == drawn[b];
        }
      }
      assert kb[slot] == correct;
    }
  }

  /** The correct language is never offered twice. */
  lemma CorrectOfferedOnce(languages: seq<string>, correct: string, picks: seq<int>, slot: int)
    requires KeyboardDraws(languages, picks, slot) && Distinct(languages)
    ensures var kb := Keyboard(languages, correct, picks, slot);
      exists i :: 0 <= i < Buttons && kb[i] == correct &&
        forall j :: 0 <= j < Buttons && j != i ==> kb[j] != correct
  {
    KeyboardOffersCorrect(languages, correct, picks, slot);
    var kb := Keyboard(languages, correct, picks, slot);
    var i :| 0 <= i < |kb| && kb[i] == correct;
    assert forall j :: 0 <= j < Buttons && j != i ==> kb[j] != kb[i];
  }

  /** The keyboard rows, as the 2x2 grid the user sees. */
  function Grid(kb: seq<string>): (g: seq<seq<string>>)
    requires |kb| == Buttons
    ensures |g| == 2 && |g[0]| == 2 && |g[1]| == 2
    ensures g[0] + g[1] == kb
  {
    [[kb[0], kb[1]], [kb[2], kb[3]]]
  }
}
