/** "Did you mean" suggestions (commands/api/validate.go, cli/commands.go): the closest name
    within a threshold, ties broken alphabetically. */
module Suggest {
  import opened Text
  import opened Levenshtein

  function Threshold(input: string): nat {
    if |input| / 3 < 2 then 2 else |input| / 3
  }

  /* n is near enough to input to be worth suggesting. */
  ghost predicate Close(input: string, names: set<string>, n: string) {
    n in names && Edit(input, n) <= Threshold(input)
  }

  /* r answers input: the nearest close name, the first in the dictionary among equally near
     ones, and "" exactly when nothing is close (or the closest name is itself empty). */
  ghost predicate Answers(input: string, names: set<string>, r: string) {
    if forall n :: n in names ==> !Close(input, names, n) then r == ""
    else
      && Close(input, names, r)
      && forall n :: Close(input, names, n) ==>
           Edit(input, r) < Edit(input, n) || (Edit(input, r) == Edit(input, n) && !Less(n, r))
  }

  ghost function Names(names: seq<string>): set<string> { set n | n in names }

  /* The answer depends on which names exist, not on the order they are listed in. */
  lemma AnswerUnique(input: string, names: set<string>, r: string, r': string)
    requires Answers(input, names, r) && Answers(input, names, r')
    ensures r == r'
  {
    LessTotal(r, r');
  }

  method SuggestFlag(input: string, flags: seq<string>) returns (r: string)
    ensures Answers(input, Names(flags), r)
  {
    var threshold := |input| / 3;
    if threshold < 2 {
      threshold := 2;
    }
    var best, bestDist := "", threshold + 1;
    for i := 0 to |flags|
      invariant bestDist <= threshold + 1
      invariant bestDist == threshold + 1 ==> best == ""
      invariant bestDist <= threshold ==> best in flags[..i] && Edit(input, best) == bestDist
      invariant forall k :: 0 <= k < i ==>
                  bestDist < Edit(input, flags[k]) || (bestDist == Edit(input, flags[k]) && !Less(flags[k], best))
    {
      var d := Distance(input, flags[i]);
      if d < bestDist || (d == bestDist && Less(flags[i], best)) {
        forall k | 0 <= k < i && Edit(input, flags[k]) == d ensures !Less(flags[k], flags[i]) {
          if Less(flags[k], flags[i]) {
            LessTransitive(flags[k], flags[i], best);
          }
        }
        if Less(flags[i], flags[i]) { LessAsymmetric(flags[i], flags[i]); }
        best, bestDist := flags[i], d;
      }
    }
    if bestDist > threshold {
      return "";
    }
    assert best in Names(flags) && Close(input, Names(flags), best);
    return best;
  }

  /* The first of the nearest names, when one is close. */
  ghost predicate FirstNearest(input: string, names: seq<string>, r: string) {
    if forall n :: n in names ==> Edit(input, n) > Threshold(input) then r == ""
    else exists at :: 0 <= at < |names| && Nearest(input, names, at) && r == names[at]
  }

  ghost predicate Nearest(input: string, names: seq<string>, at: nat)
    requires at < |names|
  {
    && Edit(input, names[at]) <= Threshold(input)
    && (forall k :: 0 <= k < at ==> Edit(input, names[at]) < Edit(input, names[k]))
    && (forall k :: at <= k < |names| ==> Edit(input, names[at]) <= Edit(input, names[k]))
  }

  /* Over names in sorted order, the first minimum is the alphabetical one. */
  lemma FirstNearestOfSorted(input: string, names: seq<string>, r: string)
    requires Sorted(names) && FirstNearest(input, names, r)
    ensures Answers(input, Names(names), r)
  {
    if at :| 0 <= at < |names| && Nearest(input, names, at) && r == names[at] {
      assert Close(input, Names(names), r);
      forall n | Close(input, Names(names), n)
        ensures Edit(input, r) < Edit(input, n) || (Edit(input, r) == Edit(input, n) && !Less(n, r))
      {
        var k :| 0 <= k < |names| && names[k] == n;
        if k == at && Less(r, r) { LessAsymmetric(r, r); }
      }
    } else {
      forall n | n in Names(names) ensures !Close(input, Names(names), n) {
        assert n in names;
      }
    }
  }

  /* Called over names in sorted order, it gives SuggestFlag's answer. */
  method SuggestCommand(input: string, names: seq<string>) returns (r: string)
    ensures FirstNearest(input, names, r)
    ensures Sorted(names) ==> Answers(input, Names(names), r)
  {
    var threshold := |input| / 3;
    if threshold < 2 {
      threshold := 2;
    }
    var best, bestDist := "", threshold + 1;
    ghost var at := 0;
    for i := 0 to |names|
      invariant bestDist <= threshold + 1
      invariant bestDist <= threshold ==> at < i && best == names[at] && Edit(input, best) == bestDist
      invariant forall k :: 0 <= k < i ==> bestDist <= Edit(input, names[k])
      invariant bestDist <= threshold ==> forall k :: 0 <= k < at ==> bestDist < Edit(input, names[k])
    {
      var d := Distance(input, names[i]);
      if d < bestDist {
        best, bestDist := names[i], d;
        at := i;
      }
    }
    r := if bestDist > threshold then "" else best;
    assert bestDist <= threshold ==> Nearest(input, names, at);
    if Sorted(names) {
      FirstNearestOfSorted(input, names, r);
    }
  }
}
