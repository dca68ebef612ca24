// The landing page `dist/index.html`: a fixed page head, one anchor per
// built deck in discovery order (`validPresentations.map(...).join('')`),
// and a fixed page foot.

module IndexPage {
  import opened Seqs
  import opened Titles

  /** The page text before the list of decks (document head, styles, heading). */
  const PagePrefix: string := @"<!DOCTYPE html>
<html lang=""en"">
<head>
    <meta charset=""UTF-8"">
    <meta name=""viewport"" content=""width=device-width, initial-scale=1.0"">
    <title>Slidev Presentations</title>
    <style>
        body {
            font-family: -apple-system, BlinkMacSystemFont, 'Segoe UI', Roboto, sans-serif;
            max-width: 800px;
            margin: 0 auto;
            padding: 2rem;
            line-height: 1.6;
        }
        h1 {
            color: #2d3748;
            border-bottom: 2px solid #e2e8f0;
            padding-bottom: 0.5rem;
        }
        .presentation {
            display: block;
            padding: 1rem;
            margin: 1rem 0;
            border: 1px solid #e2e8f0;
            border-radius: 8px;
            text-decoration: none;
            color: #2d3748;
            transition: all 0.2s;
        }
        .presentation:hover {
            border-color: #3182ce;
            box-shadow: 0 4px 12px rgba(0,0,0,0.1);
            transform: translateY(-2px);
        }
        .presentation-title {
            font-size: 1.25rem;
            font-weight: 600;
            margin-bottom: 0.5rem;
        }
        .presentation-path {
            font-size: 0.875rem;
            color: #718096;
            font-family: 'SF Mono', Monaco, monospace;
        }
        .footer {
            margin-top: 3rem;
            padding-top: 1rem;
            border-top: 1px solid #e2e8f0;
            text-align: center;
            color: #718096;
            font-size: 0.875rem;
        }
    </style>
</head>
<body>
    <h1>📊 Slidev Presentations</h1>
    <p>Welcome to the collection of Slidev presentations. Click on any presentation below to view it:</p>
    
    "

  /** The page text after the list of decks (footer and closing tags). */
  const PageSuffix: string := @"
    
    <div class=""footer"">
        <p>Built with <a href=""https://sli.dev"" target=""_blank"">Slidev</a> and deployed via GitHub Actions</p>
    </div>
</body>
</html>"

  // The fixed pieces of the per-deck anchor template, in order.
  const AnchorLead: string := "\n    <a "
  const TitleLead: string := " class=\"presentation\">\n        <div class=\"presentation-title\">"
  const PathLead: string := "</div>\n        <div class=\"presentation-path\">"
  const AnchorTail: string := "</div>\n    </a>\n    "

  /** The fixed characters of every anchor. */
  const AnchorOverhead: nat := |AnchorLead| + |"href=\"./"| + |"/\""| + |TitleLead| + |PathLead| + |"//"| + |AnchorTail|
  /** The link attribute of a deck's anchor: `href="./<name>/"`. */
  function HrefAttr(name: string): string
  {
    "href=\"./" + (name + "/\"")
  }

  /** The path shown under a deck's title: `/<name>/`. */
  function PathText(name: string): string
  {
    "/" + (name + "/")
  }

  /** The anchor for one deck (the template inside `map`): the link, the
      deck's title, and the path as text. The name occurs twice and the
      title once, and the title is as long as the name. */
  function Anchor(name: string): (a: string)
    ensures |a| == AnchorOverhead + 3 * |name|
  {
    AnchorLead + (HrefAttr(name) + (TitleLead + (Title(name) + (PathLead + (PathText(name) + AnchorTail)))))
  }

  /** The anchors of all decks, concatenated in order. */
  function IndexBody(names: seq<string>): string
  {
    if names == [] then "" else Anchor(names[0]) + IndexBody(names[1..])
  }

  /** The whole landing page for the given decks. */
  function IndexHtml(names: seq<string>): string
  {
    PagePrefix + IndexBody(names) + PageSuffix
  }

  /** `sub` occurs in `s` at position `i`. */
  predicate OccursAt(s: string, sub: string, i: nat)
  {
    i + |sub| <= |s| && s[i..i + |sub|] == sub
  }

  lemma OccursAtHead(m: string, q: string)
    ensures OccursAt(m + q, m, 0)
  {
    assert (m + q)[..|m|] == m;
  }

  lemma OccursAtShift(p: string, s: string, m: string, i: nat, j: nat)
    requires OccursAt(s, m, i) && j == |p| + i
    ensures OccursAt(p + s, m, j)
  {
    assert (p + s)[j..j + |m|] == s[i..i + |m|];
  }

  lemma OccursAtExtend(s: string, q: string, m: string, i: nat)
    requires OccursAt(s, m, i)
    ensures OccursAt(s + q, m, i)
  {
    assert (s + q)[i..i + |m|] == s[i..i + |m|];
  }

  /** `m` occurs in `p + m + q` right after `p`. */
  lemma OccursBetween(p: string, m: string, q: string)
    ensures OccursAt(p + (m + q), m, |p|)
  {
    OccursAtHead(m, q);
    OccursAtShift(p, m + q, m, 0, |p|);
  }

  /** The anchor for `name` links to `./<name>/`, then shows the title of
      `name`, then the path `/<name>/`. */
  lemma AnchorShowsDeck(name: string)
    ensures OccursAt(Anchor(name), HrefAttr(name), |AnchorLead|)
    ensures OccursAt(Anchor(name), Title(name), |AnchorLead| + |HrefAttr(name)| + |TitleLead|)
    ensures OccursAt(Anchor(name), PathText(name), |AnchorLead| + |HrefAttr(name)| + |TitleLead| + |name| + |PathLead|)
  {
    HrefInAnchor(name);
    TitleInAnchor(name);
    PathInAnchor(name);
  }

  lemma HrefInAnchor(name: string)
    ensures OccursAt(Anchor(name), HrefAttr(name), |AnchorLead|)
  {
    OccursBetween(AnchorLead, HrefAttr(name), TitleLead + (Title(name) + (PathLead + (PathText(name) + AnchorTail))));
  }

  lemma TitleInAnchor(name: string)
    ensures OccursAt(Anchor(name), Title(name), |AnchorLead| + |HrefAttr(name)| + |TitleLead|)
  {
    var href, t := HrefAttr(name), Title(name);
    var fromPath := PathLead + (PathText(name) + AnchorTail);
    var fromTitle := TitleLead + (t + fromPath);
    OccursBetween(TitleLead, t, fromPath);
    OccursAtShift(href, fromTitle, t, |TitleLead|, |href| + |TitleLead|);
    OccursAtShift(AnchorLead, href + fromTitle, t, |href| + |TitleLead|, |AnchorLead| + |href| + |TitleLead|);
  }

  lemma PathInAnchor(name: string)
    ensures OccursAt(Anchor(name), PathText(name), |AnchorLead| + |HrefAttr(name)| + |TitleLead| + |name| + |PathLead|)
  {
    var href, t, path := HrefAttr(name), Title(name), PathText(name);
    var fromPath := PathLead + (path + AnchorTail);
    var fromTitle := TitleLead + (t + fromPath);
    var tail := |TitleLead| + |t| + |PathLead|;
    OccursBetween(PathLead, path, AnchorTail);
    OccursAtShift(t, fromPath, path, |PathLead|, |t| + |PathLead|);
    OccursAtShift(TitleLead, t + fromPath, path, |t| + |PathLead|, tail);
    OccursAtShift(href, fromTitle, path, tail, |href| + tail);
    OccursAtShift(AnchorLead, href + fromTitle, path, |href| + tail,
                  |AnchorLead| + |href| + |TitleLead| + |name| + |PathLead|);
  }

  /** Different decks get different anchors: the anchor determines the name. */
  lemma AnchorInjective(a: string, b: string)
    requires Anchor(a) == Anchor(b)
    ensures a == b
  {
    AnchorShowsDeck(a);
    AnchorShowsDeck(b);
    assert HrefAttr(a) == HrefAttr(b);
    OccursBetween("href=\"./", a, "/\"");
    OccursBetween("href=\"./", b, "/\"");
  }

  lemma IndexBodyCons(name: string, rest: seq<string>)
    ensures IndexBody([name] + rest) == Anchor(name) + IndexBody(rest)
  {
    assert ([name] + rest)[1..] == rest;
  }

  /** Joining is compositional: the anchors of `a + b` are those of `a`
      followed by those of `b`. */
  lemma {:induction false} IndexBodyAppend(a: seq<string>, b: seq<string>)
    ensures IndexBody(a + b) == IndexBody(a) + IndexBody(b)
  {
    if a == [] {
      assert a + b == b;
    } else {
      HeadOfAppend(a, b);
      IndexBodyCons(a[0], a[1..] + b);
      IndexBodyAppend(a[1..], b);
      Regroup(Anchor(a[0]), IndexBody(a[1..]), IndexBody(b));
    }
  }

  /** The `k`-th deck's anchor sits between the anchors of the decks before
      it and those of the decks after it: one anchor per deck, in order. */
  lemma IndexBodyAnchorAt(names: seq<string>, k: nat)
    requires k < |names|
    ensures IndexBody(names) == IndexBody(names[..k]) + Anchor(names[k]) + IndexBody(names[k + 1..])
  {
    var before, name, after := names[..k], names[k], names[k + 1..];
    SplitAround(names, k);
    IndexBodyAppend(before, [name] + after);
    IndexBodyCons(name, after);
    Regroup(IndexBody(before), Anchor(name), IndexBody(after));
  }

  /** The body's length: one fixed overhead per deck plus three times the
      length of each name. */
  function TotalLength(names: seq<string>): nat
  {
    if names == [] then 0 else |names[0]| + TotalLength(names[1..])
  }

  lemma {:induction false} IndexBodyLength(names: seq<string>)
    ensures |IndexBody(names)| == |names| * AnchorOverhead + 3 * TotalLength(names)
  {
    if names != [] {
      IndexBodyLength(names[1..]);
    }
  }

  /** With no decks the page is the fixed head and foot alone; otherwise it
      holds the first deck's anchor right after the head. */
  lemma IndexHtmlShape(names: seq<string>)
    ensures names == [] ==> IndexHtml(names) == PagePrefix + PageSuffix
    ensures names != [] ==> OccursAt(IndexHtml(names), Anchor(names[0]), |PagePrefix|)
  {
    FramedBody(PagePrefix, names, PageSuffix);
  }

  lemma FramedBody(p: string, names: seq<string>, q: string)
    ensures names == [] ==> p + IndexBody(names) + q == p + q
    ensures names != [] ==> OccursAt(p + IndexBody(names) + q, Anchor(names[0]), |p|)
  {
    if names == [] {
      assert p + "" == p;
    } else {
      OccursBetween(p, Anchor(names[0]), IndexBody(names[1..]));
      OccursAtExtend(p + IndexBody(names), q, Anchor(names[0]), |p|);
    }
  }

  /** Two decks `intro` and `deep-dive`: the page lists them in that order
      under the titles "Intro" and "Deep Dive". */
  lemma IndexHtmlExample()
    ensures IndexHtml(["intro", "deep-dive"]) == PagePrefix + (Anchor("intro") + Anchor("deep-dive")) + PageSuffix
    ensures Title("intro") == "Intro" && Title("deep-dive") == "Deep Dive"
  {
    TitleExamples();
    TwoDecks("intro", "deep-dive");
  }

  lemma TwoDecks(a: string, b: string)
    ensures IndexBody([a, b]) == Anchor(a) + Anchor(b)
  {
    assert [a, b] == [a] + [b];
    IndexBodyCons(a, [b]);
    IndexBodyCons(b, []);
    assert [b] == [b] + [];
    assert Anchor(b) + "" == Anchor(b);
  }
}
