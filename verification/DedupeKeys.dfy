/** What the bucket keys of the dedupe plan identify: exactly when a key is one tier and one content. */
module DedupeKeys {
  import opened Text
  import opened MemoryDedupe

  /** Single spaces between words and none outside. */
  predicate Normal(s: string) {
    && Trimmed(s)
    && forall i :: 0 <= i < |s| && IsSpace(s[i]) ==> s[i] == ' ' && (i + 1 < |s| ==> !IsSpace(s[i + 1]))
  }

  lemma {:induction false} TrimStartKeepsLast(s: string)
    requires s != "" && !IsSpace(s[|s| - 1])
    ensures TrimStart(s) != "" && TrimStart(s)[|TrimStart(s)| - 1] == s[|s| - 1]
  {
    if IsSpace(s[0]) {
      TrimStartKeepsLast(s[1..]);
    }
  }

  lemma {:induction false} TrimEndLast(s: string)
    ensures TrimEnd(s) == "" || !IsSpace(TrimEnd(s)[|TrimEnd(s)| - 1])
  {
    if s != "" && IsSpace(s[|s| - 1]) {
      TrimEndLast(s[..|s| - 1]);
    }
  }

  lemma TrimIsTrimmed(s: string)
    ensures Trimmed(Trim(s))
  {
    TrimStartEmpty(s);
    TrimEndLast(TrimStart(s));
    if TrimStart(s) != "" {
      TrimEndKeepsHead(TrimStart(s));
    }
  }

  lemma {:induction false} CollapseNormal(s: string)
    requires s != "" && !IsSpace(s[|s| - 1])
    ensures var t := Collapse(s);
      && t != ""
      && (!IsSpace(s[0]) ==> t[0] == s[0])
      && !IsSpace(t[|t| - 1])
      && TidySpaces(t)
    decreases |s|
  {
    hide IsSpace, TrimStart, Collapse;
    CollapseStep(s);
    if |s| > 1 && IsSpace(s[0]) {
      var rest := TrimStart(s[1..]);
      TrimStartKeepsLast(s[1..]);
      TrimStartEmpty(s[1..]);
      CollapseNormal(rest);
      TidyCons(' ', Collapse(rest));
    } else if |s| > 1 {
      CollapseNormal(s[1..]);
      TidyCons(s[0], Collapse(s[1..]));
    }
  }

  /** Every space is a single blank with something other than a space after it. */
  predicate TidySpaces(t: string) {
    forall i :: 0 <= i < |t| && IsSpace(t[i]) ==> t[i] == ' ' && i + 1 < |t| && !IsSpace(t[i + 1])
  }

  lemma TidyCons(c: char, t: string)
    requires t != "" && TidySpaces(t) && !IsSpace(t[|t| - 1])
    requires IsSpace(c) ==> c == ' ' && !IsSpace(t[0])
    ensures TidySpaces([c] + t) && !IsSpace(([c] + t)[|t|])
  {
    hide IsSpace;
    var s := [c] + t;
    forall i | 0 <= i < |s| && IsSpace(s[i]) ensures s[i] == ' ' && i + 1 < |s| && !IsSpace(s[i + 1]) {
      assert i > 0 ==> s[i] == t[i - 1] && (i < |t| ==> s[i + 1] == t[i]);
    }
  }

  lemma CollapseStep(s: string)
    requires s != ""
    ensures IsSpace(' ')
    ensures Collapse(s) == if IsSpace(s[0]) then " " + Collapse(TrimStart(s[1..])) else [s[0]] + Collapse(s[1..])
    ensures |s| == 1 && !IsSpace(s[0]) ==> Collapse(s) == [s[0]]
  {
  }

  /** Normalized content is normal. */
  lemma NormalizeNormal(s: string)
    ensures Normal(NormalizeContent(s))
  {
    hide IsSpace;
    TrimIsTrimmed(s);
    if Trim(s) != "" {
      CollapseNormal(Trim(s));
    }
  }

  lemma {:induction false} CollapseFixes(s: string)
    requires s == "" || !IsSpace(s[|s| - 1])
    requires forall i :: 0 <= i < |s| && IsSpace(s[i]) ==> s[i] == ' ' && (i + 1 < |s| ==> !IsSpace(s[i + 1]))
    ensures Collapse(s) == s
  {
    hide IsSpace;
    if s != "" {
      forall i | 0 <= i < |s| - 1 && IsSpace(s[1..][i])
        ensures s[1..][i] == ' ' && (i + 1 < |s| - 1 ==> !IsSpace(s[1..][i + 1]))
      {
        assert s[1..][i] == s[i + 1];
      }
      CollapseFixes(s[1..]);
      if IsSpace(s[0]) {
        assert TrimStart(s[1..]) == s[1..];
      }
    }
  }

  /** The normal texts are exactly those that normalizing leaves alone, so normalizing twice changes nothing. */
  lemma NormalizeFixesIff(s: string)
    ensures NormalizeContent(s) == s <==> Normal(s)
  {
    hide IsSpace;
    NormalizeNormal(s);
    if Normal(s) {
      TrimOfTrimmed(s);
      CollapseFixes(s);
    }
  }

  /** One tier's prefix begins with the other's, and what it goes on with reads like the start of a content. */
  predicate Confusable(tier: string, longer: string) {
    && tier + "::" <= longer + "::"
    && |tier| < |longer|
    && Normal((longer + "::")[|tier| + 2..])
  }

  lemma NormalAppend(w: string, n: string)
    requires w != "" && n != "" && !IsSpace(w[|w| - 1]) && Normal(n)
    ensures Normal(w + n) <==> Normal(w)
  {
    hide IsSpace;
    var s := w + n;
    if Normal(w) {
      forall i | 0 <= i < |s| && IsSpace(s[i]) ensures s[i] == ' ' && (i + 1 < |s| ==> !IsSpace(s[i + 1])) {
        if i < |w| {
          assert s[i] == w[i] && i + 1 < |w| && s[i + 1] == w[i + 1];
        } else {
          assert s[i] == n[i - |w|];
          assert i + 1 < |s| ==> s[i + 1] == n[i + 1 - |w|];
        }
      }
    }
    if Normal(s) {
      forall i | 0 <= i < |w| && IsSpace(w[i]) ensures w[i] == ' ' && (i + 1 < |w| ==> !IsSpace(w[i + 1])) {
        assert s[i] == w[i] && (i + 1 < |w| ==> s[i + 1] == w[i + 1]);
      }
    }
  }

  ghost predicate Clash(tier: string, other: string) {
    exists n, m :: ContentsClash(tier, other, n, m)
  }

  predicate ContentsClash(tier: string, other: string, n: string, m: string) {
    n != "" && m != "" && Normal(n) && Normal(m) && KeyFor(tier, n) == KeyFor(other, m)
  }

  lemma ClashMeansConfusable(tier: string, longer: string, n: string, m: string)
    requires |tier| < |longer| && ContentsClash(tier, longer, n, m)
    ensures Confusable(tier, longer)
  {
    assert !IsSpace(':');
    hide IsSpace, Normal;
    var p, q := tier + "::", longer + "::";
    var w := q[|p|..];
    assert p + n == q + m;
    assert (p + n)[..|p|] == p && (q + m)[..|p|] == q[..|p|];
    assert (p + n)[|p|..] == n && (q + m)[|p|..] == w + m;
    assert w[|w| - 1] == ':';
    NormalAppend(w, m);
  }

  lemma ConfusableMeansClash(tier: string, longer: string)
    requires Confusable(tier, longer)
    ensures Clash(tier, longer)
  {
    assert !IsSpace(':') && Normal("x");
    hide IsSpace, Normal;
    var p, q := tier + "::", longer + "::";
    var w := q[|p|..];
    assert q == p + w;
    assert w[|w| - 1] == ':';
    NormalAppend(w, "x");
    assert p + (w + "x") == q + "x";
    assert ContentsClash(tier, longer, w + "x", "x");
  }

  lemma ClashSymmetric(tier: string, other: string)
    ensures Clash(tier, other) <==> Clash(other, tier)
  {
    if n, m :| ContentsClash(tier, other, n, m) {
      assert ContentsClash(other, tier, m, n);
    }
    if n, m :| ContentsClash(other, tier, n, m) {
      assert ContentsClash(tier, other, m, n);
    }
  }

  /** Two different tiers can share a bucket key exactly when one is confusable with the other. */
  lemma TiersClashIff(tier: string, other: string)
    requires tier != other
    ensures Clash(tier, other) <==> Confusable(tier, other) || Confusable(other, tier)
  {
    hide Normal, Confusable, ContentsClash;
    if n, m :| ContentsClash(tier, other, n, m) {
      if |tier| < |other| {
        ClashMeansConfusable(tier, other, n, m);
      } else if |other| < |tier| {
        assert ContentsClash(other, tier, m, n) by { ContentsSwap(tier, other, n, m); }
        ClashMeansConfusable(other, tier, m, n);
      } else {
        SameLengthSameTier(tier, other, n, m);
      }
    }
    if Confusable(tier, other) {
      ConfusableMeansClash(tier, other);
    }
    if Confusable(other, tier) {
      ConfusableMeansClash(other, tier);
      ClashSymmetric(tier, other);
    }
  }

  lemma ContentsSwap(tier: string, other: string, n: string, m: string)
    requires ContentsClash(tier, other, n, m)
    ensures ContentsClash(other, tier, m, n)
  {
  }

  lemma SameLengthSameTier(tier: string, other: string, n: string, m: string)
    requires |tier| == |other| && ContentsClash(tier, other, n, m)
    ensures tier == other
  {
    var a, b := KeyFor(tier, n), KeyFor(other, m);
    assert a[..|tier|] == tier && b[..|other|] == other;
  }

  /**
   * Without confusable tiers a bucket is one tier and one normalized content, and nothing else;
   * tiers without a colon are never confusable.
   */
  lemma KeyIsTierAndContent(a: string, b: string, n: string, m: string)
    requires !Confusable(a, b) && !Confusable(b, a)
    requires Normal(n) && Normal(m) && n != "" && m != ""
    ensures KeyFor(a, n) == KeyFor(b, m) <==> a == b && n == m
  {
    hide Normal, Confusable;
    if KeyFor(a, n) == KeyFor(b, m) {
      if a != b {
        assert ContentsClash(a, b, n, m);
        TiersClashIff(a, b);
      } else {
        assert KeyFor(a, n)[|a| + 2..] == n && KeyFor(b, m)[|a| + 2..] == m;
      }
    }
  }

  lemma ColonFreeTiersApart(tier: string, longer: string)
    requires ':' !in longer
    ensures !Confusable(tier, longer)
  {
    hide Normal;
    if |tier| < |longer| {
      assert longer[|tier|] in longer;
      assert (tier + "::")[|tier|] == ':' && (longer + "::")[|tier|] == longer[|tier|] != ':';
    }
  }
}
