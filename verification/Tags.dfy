/**
 Tags: which strings are tags, and how a list of them travels through one SQL column.
 */
module Tags {

  predicate TagChar(c: char) {
    'a' <= c <= 'z' || '0' <= c <= '9' || c == '-' || c == '_' || c == '.'
  }

  predicate ValidTag(tag: string) {
    tag != "" && forall i :: 0 <= i < |tag| ==> TagChar(tag[i])
  }

  predicate ValidTags(tags: seq<string>) {
    forall i :: 0 <= i < |tags| ==> ValidTag(tags[i])
  }

  method ValidateTag(tag: string) returns (ok: bool)
    ensures ok <==> ValidTag(tag)
  {
    if tag == "" {
      return false;
    }
    for i := 0 to |tag|
      invariant forall k :: 0 <= k < i ==> TagChar(tag[k])
    {
      var r := tag[i];
      if !(('a' <= r <= 'z') || ('0' <= r <= '9') || r == '-' || r == '_' || r == '.') {
        return false;
      }
    }
    ok := true;
  }

  /** GROUP_CONCAT: the values with commas between them; no value at all reads as empty. */
  function Join(tags: seq<string>): string {
    if tags == [] then "" else if |tags| == 1 then tags[0] else tags[0] + "," + Join(tags[1..])
  }

  function FirstComma(s: string): (i: nat)
    ensures i <= |s| && (forall k :: 0 <= k < i ==> s[k] != ',') && (i < |s| ==> s[i] == ',')
  {
    if s == "" || s[0] == ',' then 0 else 1 + FirstComma(s[1..])
  }

  /** strings.Split at commas: always one piece more than there are commas. */
  function Split(s: string): (pieces: seq<string>)
    ensures pieces != []
    decreases |s|
  {
    var i := FirstComma(s);
    if i == |s| then [s] else [s[..i]] + Split(s[i + 1..])
  }

  function ReadTags(column: string): seq<string> {
    if column == "" then [] else Split(column)
  }

  predicate CommaFree(s: string) {
    forall i :: 0 <= i < |s| ==> s[i] != ','
  }

  function Commas(s: string): nat {
    if s == "" then 0 else Commas(s[1..]) + (if s[0] == ',' then 1 else 0)
  }

  lemma {:induction false} CommasConcat(a: string, b: string)
    ensures Commas(a + b) == Commas(a) + Commas(b)
    decreases |a|
  {
    if a == "" {
      assert a + b == b;
    } else {
      assert (a + b)[1..] == a[1..] + b;
      CommasConcat(a[1..], b);
    }
  }

  lemma {:induction false} CommasNone(s: string)
    ensures Commas(s) == 0 <==> CommaFree(s)
    decreases |s|
  {
    if s != "" {
      CommasNone(s[1..]);
      assert CommaFree(s) ==> CommaFree(s[1..]);
      if CommaFree(s[1..]) && s[0] != ',' {
        forall i | 0 <= i < |s| ensures s[i] != ',' {
          if i > 0 {
            assert s[i] == s[1..][i - 1];
          }
        }
      }
    }
  }

  lemma {:induction false} SplitPieces(s: string)
    ensures |Split(s)| == Commas(s) + 1
    decreases |s|
  {
    var i := FirstComma(s);
    CommasNone(s[..i]);
    if i < |s| {
      SplitPieces(s[i + 1..]);
      CommasConcat(s[..i], s[i..]);
      assert s == s[..i] + s[i..] && s[i..][1..] == s[i + 1..];
    } else {
      assert s[..i] == s;
    }
  }

  function TotalCommas(tags: seq<string>): nat {
    if tags == [] then 0 else Commas(tags[0]) + TotalCommas(tags[1..])
  }

  lemma {:induction false} JoinPieces(tags: seq<string>)
    requires tags != []
    ensures |Split(Join(tags))| == |tags| + TotalCommas(tags)
    decreases |tags|
  {
    SplitPieces(Join(tags));
    if |tags| > 1 {
      JoinPieces(tags[1..]);
      SplitPieces(Join(tags[1..]));
      assert Commas(",") == 1;
      CommasConcat(tags[0] + ",", Join(tags[1..]));
      CommasConcat(tags[0], ",");
    } else {
      assert tags[1..] == [];
    }
  }

  lemma SplitFirst(a: string, rest: string)
    requires CommaFree(a)
    ensures Split(a + "," + rest) == [a] + Split(rest)
  {
    var s := a + "," + rest;
    var i := FirstComma(s);
    assert s[|a|] == ',';
    assert forall k :: 0 <= k < |a| ==> s[k] == a[k];
    assert i == |a|;
    assert s[..i] == a && s[i + 1..] == rest;
  }

  lemma SplitNone(a: string)
    requires CommaFree(a)
    ensures Split(a) == [a]
  {
    assert FirstComma(a) == |a|;
  }

  lemma {:induction false} SplitJoin(tags: seq<string>)
    requires tags != [] && forall t <- tags :: CommaFree(t)
    ensures Split(Join(tags)) == tags
    decreases |tags|
  {
    assert tags[0] in tags;
    if |tags| == 1 {
      SplitNone(tags[0]);
    } else {
      SplitJoin(tags[1..]);
      SplitFirst(tags[0], Join(tags[1..]));
      assert [tags[0]] + tags[1..] == tags;
    }
  }

  lemma {:induction false} TotalCommasNone(tags: seq<string>)
    ensures TotalCommas(tags) == 0 <==> forall t <- tags :: CommaFree(t)
    decreases |tags|
  {
    if tags != [] {
      CommasNone(tags[0]);
      TotalCommasNone(tags[1..]);
    }
  }

  lemma {:induction false} JoinEmpty(tags: seq<string>)
    requires tags != []
    ensures Join(tags) == "" <==> tags == [""]
  {
  }

  /** A tag list survives the column exactly when no tag has a comma and it is not one empty tag. */
  lemma TagsSurviveIff(tags: seq<string>)
    ensures ReadTags(Join(tags)) == tags <==> (forall t <- tags :: CommaFree(t)) && tags != [""]
  {
    if tags != [] {
      JoinEmpty(tags);
      JoinPieces(tags);
      TotalCommasNone(tags);
      if forall t <- tags :: CommaFree(t) {
        SplitJoin(tags);
      }
    }
  }

  /** Validated tags survive. */
  lemma ValidTagsSurvive(tags: seq<string>)
    requires ValidTags(tags)
    ensures ReadTags(Join(tags)) == tags
  {
    forall t | t in tags ensures CommaFree(t) {
      var i :| 0 <= i < |tags| && tags[i] == t;
      assert ValidTag(tags[i]);
    }
    assert tags == [""] ==> ValidTag(tags[0]);
    TagsSurviveIff(tags);
  }
}
