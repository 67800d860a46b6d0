/** `get_local_tag_name` of `converterhtml.py`: the local name of an XML
    tag written in Clark notation, `{namespace}local`. */
module TagName {
  import opened Xml

  /** The position of the first `}` of a tag that has one. */
  function FirstBrace(tag: string): (i: nat)
    requires '}' in tag
    ensures i < |tag| && tag[i] == '}' && '}' !in tag[..i]
  {
    if tag[0] == '}' then 0
    else
      assert tag == [tag[0]] + tag[1..];
      FirstBrace(tag[1..]) + 1
  }

  /** `element_tag.split('}', 1)[1]` when the tag has a `}`, the tag itself
      otherwise. */
  function LocalTagName(tag: string): (r: string)
    ensures '}' !in tag ==> r == tag
    ensures '}' in tag ==> exists prefix :: '}' !in prefix && tag == prefix + "}" + r
    ensures |r| <= |tag| && r == tag[|tag| - |r|..]
    ensures '}' in tag ==> |r| < |tag|
  {
    if '}' in tag then
      var i := FirstBrace(tag);
      assert tag == tag[..i] + "}" + tag[i + 1..];
      tag[i + 1..]
    else tag
  }

  /** The split is at the first `}`: what comes before it has none. */
  lemma PrefixUnique(tag: string, p1: string, r1: string, p2: string, r2: string)
    requires '}' !in p1 && tag == p1 + "}" + r1
    requires '}' !in p2 && tag == p2 + "}" + r2
    ensures p1 == p2 && r1 == r2
  {
    assert forall j :: 0 <= j < |p1| ==> tag[j] == p1[j];
    assert forall j :: 0 <= j < |p2| ==> tag[j] == p2[j];
    assert tag[|p1|] == '}' && tag[|p2|] == '}';
    assert |p1| == |p2|;
    assert p1 == tag[..|p1|] == p2;
    assert r1 == tag[|p1| + 1..] == r2;
  }

  /** A tag in Clark notation yields its local name. */
  lemma LocalTagNameOfClark(ns: string, local: string)
    requires '}' !in ns && '}' !in local
    ensures LocalTagName("{" + ns + "}" + local) == local
  {
    var tag := "{" + ns + "}" + local;
    assert tag == ("{" + ns) + "}" + local;
    assert '}' in tag by { assert tag[|ns| + 1] == '}'; }
    var r := LocalTagName(tag);
    var prefix :| '}' !in prefix && tag == prefix + "}" + r;
    PrefixUnique(tag, prefix, r, "{" + ns, local);
  }

  /** On a tag in Clark notation, applying the function twice is applying
      it once. */
  lemma LocalTagNameIdempotent(ns: string, local: string)
    requires '}' !in ns && '}' !in local
    ensures LocalTagName(LocalTagName("{" + ns + "}" + local)) == LocalTagName("{" + ns + "}" + local)
  {
    LocalTagNameOfClark(ns, local);
  }

  /** The two examples of the function's documentation:
      `{http://www.tei-c.org/ns/1.0}div` gives `div`, `head` gives `head`. */
  lemma LocalTagNameExamples()
    ensures LocalTagName(TeiTag("div")) == "div"
    ensures LocalTagName("head") == "head"
  {
    assert '}' !in TeiNamespace;
    LocalTagNameOfClark(TeiNamespace, "div");
  }

  /** Nothing after the first `}` of a tag with at most one is a `}`. */
  lemma AfterOnlyBrace(tag: string, i: nat)
    requires forall a, b :: 0 <= a < b < |tag| && tag[a] == '}' ==> tag[b] != '}'
    requires i < |tag| && tag[i] == '}'
    ensures '}' !in tag[i + 1..]
  {
    var rest := tag[i + 1..];
    forall k | 0 <= k < |rest| ensures rest[k] != '}' {
      assert rest[k] == tag[i + 1 + k];
    }
  }

  /** On a tag with at most one `}` it agrees with the `split('}')[-1]` of
      the collator's modern tokenizer. */
  lemma LocalTagNameIsLocalName(tag: string)
    requires forall i, j :: 0 <= i < j < |tag| && tag[i] == '}' ==> tag[j] != '}'
    ensures LocalTagName(tag) == LocalName(tag)
  {
    if '}' in tag {
      var i := FirstBrace(tag);
      var prefix, local := tag[..i + 1], tag[i + 1..];
      assert LocalTagName(tag) == local;
      AfterOnlyBrace(tag, i);
      LocalNameAfterBrace(prefix, local);
      assert prefix + local == tag;
    }
  }
}
