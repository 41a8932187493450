/** `navigateTo` (`src/contexts/NavigationContext.tsx`): the item selected in the sidebar and the
    breadcrumbs for a destination. */
module Navigation {
  import opened Text

  /** `s.replace(/\s+/g, '-')`: every run of whitespace becomes one `-`. Defined from the end: a
      whitespace character adds a `-` only when it starts a run. */
  function Dashed(s: string): (r: string)
    ensures |r| <= |s|
    decreases |s|
  {
    if s == [] then []
    else
      var n := |s| - 1;
      if !IsWhitespace(s[n]) then Dashed(s[..n]) + [s[n]]
      else if n > 0 && IsWhitespace(s[n - 1]) then Dashed(s[..n])
      else Dashed(s[..n]) + "-"
  }

  /** The href of a destination. */
  function Href(destination: string): string {
    "/" + Dashed(ToLower(destination))
  }

  /** A breadcrumb: its label, its link, whether it is the current page, and whether it shows the
      home icon. */
  datatype Crumb = Crumb(name: string, href: string, current: bool, homeIcon: bool)

  const Home := Crumb("", "/", false, true)

  /** What `navigateTo` hands on: the destination to `setSelectedItem` and the breadcrumbs to
      `setBreadcrumbs`. */
  datatype Navigated = Navigated(selectedItem: string, breadcrumbs: seq<Crumb>)

  function NavigateTo(destination: string): Navigated {
    Navigated(destination,
              [Home] + if destination != "Dashboard" then [Crumb(destination, Href(destination), true, false)] else [])
  }

  /** The selected item is the destination as given; the home crumb comes first; the Dashboard
      has no other crumb, and any other destination exactly one more, the current one, labelled
      with the destination and linked to its href. */
  lemma NavigateToShape(destination: string)
    ensures NavigateTo(destination).selectedItem == destination
    ensures |NavigateTo(destination).breadcrumbs| >= 1 && NavigateTo(destination).breadcrumbs[0] == Home
    ensures destination == "Dashboard" <==> |NavigateTo(destination).breadcrumbs| == 1
    ensures destination != "Dashboard" ==> (|NavigateTo(destination).breadcrumbs| == 2 &&
      NavigateTo(destination).breadcrumbs[1] == Crumb(destination, Href(destination), true, false))
    ensures forall k :: 0 <= k < |NavigateTo(destination).breadcrumbs| ==>
      (NavigateTo(destination).breadcrumbs[k].current <==> k == 1)
  {
  }

  /** No whitespace is left in a dashed string. */
  lemma {:induction false} DashedNoWhitespace(s: string)
    ensures forall i :: 0 <= i < |Dashed(s)| ==> !IsWhitespace(Dashed(s)[i])
    decreases |s|
  {
    if s != [] {
      DashedNoWhitespace(s[..|s| - 1]);
    }
  }

  /** A string without whitespace is left as it is. */
  lemma {:induction false} DashedPlain(s: string)
    requires forall i :: 0 <= i < |s| ==> !IsWhitespace(s[i])
    ensures Dashed(s) == s
    decreases |s|
  {
    if s != [] {
      var n := |s| - 1;
      DashedPlain(s[..n]);
      assert s[..n] + [s[n]] == s;
    }
  }

  /** Dashing twice is dashing once. */
  lemma DashedIdempotent(s: string)
    ensures Dashed(Dashed(s)) == Dashed(s)
  {
    DashedNoWhitespace(s);
    DashedPlain(Dashed(s));
  }

  /** Text that starts with a non-whitespace character is dashed on its own, whatever precedes
      it. */
  lemma {:induction false} DashedAppend(p: string, q: string)
    requires q != [] && !IsWhitespace(q[0])
    ensures Dashed(p + q) == Dashed(p) + Dashed(q)
    decreases |q|
  {
    var n := |q| - 1;
    var s := p + q;
    assert s[..|s| - 1] == p + q[..n];
    if n == 0 {
      assert p + q[..0] == p;
      assert q[..0] == [];
    } else {
      DashedAppend(p, q[..n]);
      assert s[|s| - 2] == q[n - 1];
    }
  }

  /** A run of whitespace after text that does not end in whitespace becomes one `-`. */
  lemma {:induction false} DashedRun(x: string, w: string)
    requires x == [] || !IsWhitespace(x[|x| - 1])
    requires w != [] && AllWhitespace(w)
    ensures Dashed(x + w) == Dashed(x) + "-"
    decreases |w|
  {
    var s := x + w;
    var n := |w| - 1;
    assert s[..|s| - 1] == x + w[..n];
    if n == 0 {
      assert x + w[..0] == x;
    } else {
      DashedRun(x, w[..n]);
      assert s[|s| - 2] == w[n - 1];
    }
  }

  /** Two words separated by a run of whitespace are joined by one `-`. */
  lemma DashedWords(x: string, w: string, y: string)
    requires x == [] || !IsWhitespace(x[|x| - 1])
    requires w != [] && AllWhitespace(w)
    requires y != [] && !IsWhitespace(y[0])
    ensures Dashed(x + w + y) == Dashed(x) + "-" + Dashed(y)
  {
    DashedRun(x, w);
    DashedAppend(x + w, y);
  }

  /** The href starts at the root and has no whitespace. */
  lemma HrefShape(destination: string)
    ensures |Href(destination)| >= 1 && Href(destination)[0] == '/'
    ensures |Href(destination)| <= |destination| + 1
    ensures forall i :: 0 <= i < |Href(destination)| ==> !IsWhitespace(Href(destination)[i])
  {
    DashedNoWhitespace(ToLower(destination));
  }

  /** A word: no whitespace and no upper-case letter. */
  predicate IsWord(s: string) {
    s != [] && forall i :: 0 <= i < |s| ==> !IsWhitespace(s[i]) && !('A' <= s[i] <= 'Z')
  }

  /** Two lower-case words separated by a run of whitespace become `/word-word`. */
  lemma HrefWords(x: string, w: string, y: string)
    requires IsWord(x) && IsWord(y)
    requires w != [] && AllWhitespace(w)
    ensures Href(x + w + y) == "/" + x + "-" + y
  {
    var s := x + w + y;
    LowerUnchanged(s);
    DashedPlain(x);
    DashedPlain(y);
    DashedWords(x, w, y);
    calc {
      Href(s);
      "/" + Dashed(s);
      "/" + (x + "-" + y);
      { PrefixAssoc("/", x + "-", y); PrefixAssoc("/", x, "-"); }
      "/" + x + "-" + y;
    }
  }

  /** Concatenation regroups to the left. */
  lemma PrefixAssoc(a: string, b: string, c: string)
    ensures a + (b + c) == a + b + c
  {
  }


}
