/** A worked case of `stripHtml`: tags go, the text between them stays. */
module RssTextExamples {
  import opened RssText

  /** The example markup, cut at its tag boundaries. */
  lemma ExampleSplit(s: string)
    requires s == "<p>Hello <b>World</b></p>"
    ensures s == "<" + "p" + ">" + ("Hello " + ("<" + "b" + ">" + ("World" + ("<" + "/b" + ">" + ("<" + "/p" + ">")))))
  {
  }

  // The example is proved through StripTagsExamplePieces, where the pieces are
  // parameters: with the literals in place the solver runs near its budget.
  lemma StripTagsExampleSplit(s: string)
    requires s == "<" + "p" + ">" + ("Hello " + ("<" + "b" + ">" + ("World" + ("<" + "/b" + ">" + ("<" + "/p" + ">")))))
    ensures StripTags(s) == "Hello World"
  {
    StripTagsExamplePieces(s, "p", "Hello ", "b", "World", "/b", "/p");
  }

  lemma StripTagsExamplePieces(s: string, t1: string, x: string, t2: string, y: string, t3: string, t4: string)
    requires t1 == "p" && x == "Hello " && t2 == "b" && y == "World" && t3 == "/b" && t4 == "/p"
    requires s == "<" + t1 + ">" + (x + ("<" + t2 + ">" + (y + ("<" + t3 + ">" + ("<" + t4 + ">")))))
    ensures StripTags(s) == "Hello World"
  {
    assert '>' !in t1 && '>' !in t2 && '>' !in t3 && '>' !in t4 && '<' !in x && '<' !in y;
    StripTagsNested(s, t1, x, t2, y, t3, t4);
    assert x + y == "Hello World";
  }

  lemma StripTagsExample(s: string)
    requires s == "<p>Hello <b>World</b></p>"
    ensures StripTags(s) == "Hello World"
  {
    ExampleSplit(s);
    StripTagsExampleSplit(s);
  }

  lemma StripHtmlExample(s: string)
    requires s == "<p>Hello <b>World</b></p>"
    ensures StripHtml(s) == "Hello World"
  {
    StripTagsExample(s);
    var t := StripTags(s);
    assert NoOuterWhitespace(t);
    TrimIdempotent(t);
  }
}
