/**
 Which records the TEE extension's unescaped payload does not determine: exactly those in which one of the
 three separators between the fields also occurs elsewhere between its two neighbouring fields.
 */
module PayloadAmbiguity {
  import opened RecordPayload

  const TO_JUSTIFICATION := "\",\"justification\":\""
  const TO_SEVERITY := "\",\"severity\":\""
  const TO_SUMMARY := "\",\"summary\":\""

  /** The four values with the separators between them. */
  function Body(r: Record): string {
    r.drivingFactor + TO_JUSTIFICATION + r.justification + TO_SEVERITY + r.severity + TO_SUMMARY + r.summary
  }

  lemma PayloadIsBody(r: Record)
    ensures GoPayload(r) == "{\"driving_factor\":\"" + Body(r) + "\"}"
  {
    GoSplit(r);
    assert TO_JUSTIFICATION == "\"" + ",\"justification\":\"";
    assert TO_SEVERITY == "\"" + ",\"severity\":\"";
    assert TO_SUMMARY == "\"" + ",\"summary\":\"";
    Flatten("{\"driving_factor\":\"", "\"", r.drivingFactor, ",\"justification\":\"", r.justification,
            ",\"severity\":\"", r.severity, ",\"summary\":\"", r.summary, "\"}");
  }

  lemma Flatten(open: string, q: string, d: string, j': string, j: string, s': string, s: string, u': string, u: string, end: string)
    ensures open + (d + q + (j' + (j + q + (s' + (s + q + (u' + (u + end)))))))
         == open + (d + (q + j') + j + (q + s') + s + (q + u') + u) + end
  {
  }

  lemma SameBody(r: Record, q: Record)
    ensures GoPayload(r) == GoPayload(q) <==> Body(r) == Body(q)
  {
    PayloadIsBody(r);
    PayloadIsBody(q);
    var open := "{\"driving_factor\":\"";
    if GoPayload(r) == GoPayload(q) {
      DropSuffix(open + Body(r), open + Body(q), "\"}");
      DropPrefix(open, Body(r), Body(q));
    }
  }

  // ---------------------------------------------------------------- occurrences

  predicate OccursAt(separator: string, text: string, i: nat) {
    i + |separator| <= |text| && text[i..i + |separator|] == separator
  }

  /** The separator between two fields also occurs at another place of the text they make. */
  predicate Elsewhere(left: string, separator: string, right: string) {
    exists i | 0 <= i <= |left| + |right| :: i != |left| && OccursAt(separator, left + separator + right, i)
  }

  /** What a caller can look for in a record before hashing it. */
  predicate Ambiguous(r: Record) {
    || Elsewhere(r.drivingFactor, TO_JUSTIFICATION, r.justification)
    || Elsewhere(r.justification, TO_SEVERITY, r.severity)
    || Elsewhere(r.severity, TO_SUMMARY, r.summary)
  }

  // ---------------------------------------------------------------- an occurrence elsewhere is a second record

  /** The text split at another occurrence of the separator. */
  lemma Resplit(left: string, separator: string, right: string, i: nat)
    requires OccursAt(separator, left + separator + right, i)
    ensures var text := left + separator + right;
            text[..i] + separator + text[i + |separator|..] == text
  {
  }

  lemma Regroup(d: string, j': string, j: string, s': string, s: string, u': string, u: string)
    ensures d + j' + j + s' + s + u' + u == (d + j' + j) + (s' + s + u' + u)
    ensures d + j' + j + s' + s + u' + u == (d + j') + (j + s' + s) + (u' + u)
    ensures d + j' + j + s' + s + u' + u == (d + j' + j + s') + (s + u' + u)
  {
  }

  function MoveFirst(r: Record, i: nat): Record
    requires OccursAt(TO_JUSTIFICATION, r.drivingFactor + TO_JUSTIFICATION + r.justification, i)
  {
    var text := r.drivingFactor + TO_JUSTIFICATION + r.justification;
    r.(drivingFactor := text[..i], justification := text[i + |TO_JUSTIFICATION|..])
  }

  function MoveSecond(r: Record, i: nat): Record
    requires OccursAt(TO_SEVERITY, r.justification + TO_SEVERITY + r.severity, i)
  {
    var text := r.justification + TO_SEVERITY + r.severity;
    r.(justification := text[..i], severity := text[i + |TO_SEVERITY|..])
  }

  function MoveThird(r: Record, i: nat): Record
    requires OccursAt(TO_SUMMARY, r.severity + TO_SUMMARY + r.summary, i)
  {
    var text := r.severity + TO_SUMMARY + r.summary;
    r.(severity := text[..i], summary := text[i + |TO_SUMMARY|..])
  }

  lemma MoveFirstCollides(r: Record, i: nat)
    requires OccursAt(TO_JUSTIFICATION, r.drivingFactor + TO_JUSTIFICATION + r.justification, i)
    ensures Body(MoveFirst(r, i)) == Body(r) && |MoveFirst(r, i).drivingFactor| == i
  {
    var q := MoveFirst(r, i);
    Resplit(r.drivingFactor, TO_JUSTIFICATION, r.justification, i);
    Regroup(r.drivingFactor, TO_JUSTIFICATION, r.justification, TO_SEVERITY, r.severity, TO_SUMMARY, r.summary);
    Regroup(q.drivingFactor, TO_JUSTIFICATION, q.justification, TO_SEVERITY, q.severity, TO_SUMMARY, q.summary);
  }

  lemma MoveSecondCollides(r: Record, i: nat)
    requires OccursAt(TO_SEVERITY, r.justification + TO_SEVERITY + r.severity, i)
    ensures Body(MoveSecond(r, i)) == Body(r) && |MoveSecond(r, i).justification| == i
  {
    var q := MoveSecond(r, i);
    Resplit(r.justification, TO_SEVERITY, r.severity, i);
    Regroup(r.drivingFactor, TO_JUSTIFICATION, r.justification, TO_SEVERITY, r.severity, TO_SUMMARY, r.summary);
    Regroup(q.drivingFactor, TO_JUSTIFICATION, q.justification, TO_SEVERITY, q.severity, TO_SUMMARY, q.summary);
  }

  lemma MoveThirdCollides(r: Record, i: nat)
    requires OccursAt(TO_SUMMARY, r.severity + TO_SUMMARY + r.summary, i)
    ensures Body(MoveThird(r, i)) == Body(r) && |MoveThird(r, i).severity| == i
  {
    var q := MoveThird(r, i);
    Resplit(r.severity, TO_SUMMARY, r.summary, i);
    Regroup(r.drivingFactor, TO_JUSTIFICATION, r.justification, TO_SEVERITY, r.severity, TO_SUMMARY, r.summary);
    Regroup(q.drivingFactor, TO_JUSTIFICATION, q.justification, TO_SEVERITY, q.severity, TO_SUMMARY, q.summary);
  }

  lemma SecondRecord(r: Record) returns (q: Record)
    requires Ambiguous(r)
    ensures q != r && Body(q) == Body(r)
  {
    if Elsewhere(r.drivingFactor, TO_JUSTIFICATION, r.justification) {
      var i :| 0 <= i && i != |r.drivingFactor| && OccursAt(TO_JUSTIFICATION, r.drivingFactor + TO_JUSTIFICATION + r.justification, i);
      MoveFirstCollides(r, i);
      q := MoveFirst(r, i);
    } else if Elsewhere(r.justification, TO_SEVERITY, r.severity) {
      var i :| 0 <= i && i != |r.justification| && OccursAt(TO_SEVERITY, r.justification + TO_SEVERITY + r.severity, i);
      MoveSecondCollides(r, i);
      q := MoveSecond(r, i);
    } else {
      var i :| 0 <= i && i != |r.severity| && OccursAt(TO_SUMMARY, r.severity + TO_SUMMARY + r.summary, i);
      MoveThirdCollides(r, i);
      q := MoveThird(r, i);
    }
  }

  // ---------------------------------------------------------------- a second record is an occurrence elsewhere

  function First(r: Record): nat {
    |r.drivingFactor|
  }

  function Second(r: Record): nat {
    First(r) + |TO_JUSTIFICATION| + |r.justification|
  }

  function Third(r: Record): nat {
    Second(r) + |TO_SEVERITY| + |r.severity|
  }

  /** Where the separators stand in the body. */
  lemma Separators(r: Record)
    ensures var t := Body(r);
            && |t| == Third(r) + |TO_SUMMARY| + |r.summary|
            && OccursAt(TO_JUSTIFICATION, t, First(r)) && OccursAt(TO_SEVERITY, t, Second(r)) && OccursAt(TO_SUMMARY, t, Third(r))
  {
    SevenParts(r.drivingFactor, TO_JUSTIFICATION, r.justification, TO_SEVERITY, r.severity, TO_SUMMARY, r.summary);
  }

  /** What stands around each. */
  lemma Stretches(r: Record)
    ensures var t := Body(r);
            && |t| == Third(r) + |TO_SUMMARY| + |r.summary|
            && t[..Second(r)] == r.drivingFactor + TO_JUSTIFICATION + r.justification
            && t[First(r) + |TO_JUSTIFICATION|..Third(r)] == r.justification + TO_SEVERITY + r.severity
            && t[Second(r) + |TO_SEVERITY|..] == r.severity + TO_SUMMARY + r.summary
  {
    SevenParts(r.drivingFactor, TO_JUSTIFICATION, r.justification, TO_SEVERITY, r.severity, TO_SUMMARY, r.summary);
  }

  lemma SevenParts(d: string, j': string, j: string, s': string, s: string, u': string, u: string)
    ensures var t := d + j' + j + s' + s + u' + u;
            var p, q, o := |d|, |d| + |j'| + |j|, |d| + |j'| + |j| + |s'| + |s|;
            && |t| == o + |u'| + |u|
            && t[p..p + |j'|] == j' && t[q..q + |s'|] == s' && t[o..o + |u'|] == u'
            && t[..q] == d + j' + j && t[p + |j'|..o] == j + s' + s && t[q + |s'|..] == s + u' + u
  {
  }

  lemma SamePositions(r: Record, q: Record)
    requires Body(r) == Body(q) && First(r) == First(q) && Second(r) == Second(q) && Third(r) == Third(q)
    ensures r == q
  {
    var t := Body(r);
    Stretches(r);
    Stretches(q);
    assert r.drivingFactor == t[..Second(r)][..First(r)] == q.drivingFactor;
    assert r.justification == t[First(r) + |TO_JUSTIFICATION|..Third(r)][..|r.justification|] == q.justification;
    assert r.severity == t[Second(r) + |TO_SEVERITY|..][..|r.severity|] == q.severity;
    assert r.summary == t[Second(r) + |TO_SEVERITY|..][|r.severity| + |TO_SUMMARY|..] == q.summary;
  }

  /** An occurrence within a stretch of a text is an occurrence in that stretch. */
  lemma Within(separator: string, text: string, lo: nat, hi: nat, i: nat)
    requires OccursAt(separator, text, i) && lo <= i && i + |separator| <= hi <= |text|
    ensures OccursAt(separator, text[lo..hi], i - lo)
  {
    forall k | 0 <= k < |separator| ensures text[lo..hi][i - lo + k] == separator[k] {
      assert text[i..i + |separator|][k] == separator[k];
    }
    assert text[lo..hi][i - lo..i - lo + |separator|] == separator;
  }

  lemma IsElsewhere(left: string, separator: string, right: string, i: nat)
    requires i != |left| && OccursAt(separator, left + separator + right, i)
    ensures Elsewhere(left, separator, right)
  {
  }

  lemma ThirdMoved(r: Record, q: Record)
    requires Body(r) == Body(q) && Third(q) != Third(r) && Third(q) >= Second(r) + |TO_SEVERITY|
    ensures Ambiguous(r)
  {
    Stretches(r);
    Separators(q);
    var lo := Second(r) + |TO_SEVERITY|;
    var t := Body(r);
    Within(TO_SUMMARY, t, lo, |t|, Third(q));
    assert t[lo..|t|] == t[lo..];
    IsElsewhere(r.severity, TO_SUMMARY, r.summary, Third(q) - lo);
  }

  /** A second separator that moved past the third took the third with it. */
  lemma SecondMoved(r: Record, q: Record)
    requires Body(r) == Body(q) && Second(q) != Second(r) && Second(q) >= First(r) + |TO_JUSTIFICATION|
    ensures Ambiguous(r)
  {
    Stretches(r);
    Separators(q);
    if Second(q) + |TO_SEVERITY| <= Third(r) {
      var lo := First(r) + |TO_JUSTIFICATION|;
      Within(TO_SEVERITY, Body(r), lo, Third(r), Second(q));
      IsElsewhere(r.justification, TO_SEVERITY, r.severity, Second(q) - lo);
    } else {
      ThirdMoved(r, q);
    }
  }

  lemma FirstMoved(r: Record, q: Record)
    requires Body(r) == Body(q) && First(q) != First(r)
    ensures Ambiguous(r)
  {
    Stretches(r);
    Separators(q);
    if First(q) + |TO_JUSTIFICATION| <= Second(r) {
      Within(TO_JUSTIFICATION, Body(r), 0, Second(r), First(q));
      IsElsewhere(r.drivingFactor, TO_JUSTIFICATION, r.justification, First(q));
    } else {
      SecondMoved(r, q);
    }
  }

  /**
   Main theorem. Another record has the same TEE payload exactly when one of the separators occurs elsewhere
   between its neighbours; a quote alone does no harm.
   */
  lemma GoAmbiguousExactly(r: Record)
    ensures (exists q :: q != r && GoPayload(q) == GoPayload(r)) <==> Ambiguous(r)
  {
    if Ambiguous(r) {
      var q := SecondRecord(r);
      SameBody(r, q);
    }
    forall q | q != r && GoPayload(q) == GoPayload(r) ensures Ambiguous(r) {
      SameBody(r, q);
      if First(q) != First(r) {
        FirstMoved(r, q);
      } else if Second(q) != Second(r) {
        SecondMoved(r, q);
      } else if Third(q) != Third(r) {
        ThirdMoved(r, q);
      } else {
        SamePositions(r, q);
      }
    }
  }

  /** For instance, a justification that spells the next key. */
  lemma GoCollision(r: Record, x: string, y: string)
    requires r.justification == x + TO_SEVERITY + y
    ensures var q := Record(r.drivingFactor, x, y + TO_SEVERITY + r.severity, r.summary);
            q != r && GoPayload(q) == GoPayload(r)
  {
    var text := r.justification + TO_SEVERITY + r.severity;
    assert text == x + TO_SEVERITY + (y + TO_SEVERITY + r.severity);
    assert text[..|x|] == x && text[|x|..|x| + |TO_SEVERITY|] == TO_SEVERITY;
    assert text[|x| + |TO_SEVERITY|..] == y + TO_SEVERITY + r.severity;
    MoveSecondCollides(r, |x|);
    SameBody(r, MoveSecond(r, |x|));
  }
}
