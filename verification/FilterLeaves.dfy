/** What each leaf of a trigger filter asks of a payload, and that both filter forms ask the same. */
module FilterLeaves {
  import opened Prelude
  import opened Flatten
  import opened Filters

  function FlatOf(payload: Json): map<string, Json>
    requires payload.Object?
  {
    FlatEntries(payload, |payload.entries|, "")
  }

  /** The value at a path; null when there is none. */
  function At(payload: Json, path: string): Json
    requires payload.Object?
  {
    Walk(payload, Split(path))
  }

  /** Dotted paths read the payload as walking it does. */
  lemma PathsAreWalked(payload: Json, path: string)
    requires payload.Object? && WellFormed(payload) && DotFree(payload)
    ensures Lookup(FlatOf(payload), path) == At(payload, path)
  {
    FlatteningAgreesWithWalking(payload, path);
  }

  // ---------------------------------------------------------------- labels

  /** The label goes by the name: it is that text, or an object whose "name" is that value (the empty text if it has none). */
  predicate GoesBy(tag: Json, name: Json) {
    match tag
    case Text(_) => tag == name
    case Object(entries) =>
      if exists e :: e in entries && e.key == "name" then Get(tag, "name") == name else name == Text("")
    case _ => false
  }

  predicate IsLabel(x: Json) {
    x.Text? || x.Object?
  }

  lemma {:induction false} NamesExactly(labels: seq<Json>)
    ensures NamesOf(labels).Some? <==> forall x :: x in labels ==> IsLabel(x)
    ensures NamesOf(labels).Some? ==> forall name :: name in NamesOf(labels).value <==> exists x :: x in labels && GoesBy(x, name)
  {
    if labels != [] {
      var init, last := labels[..|labels| - 1], Last(labels);
      NamesExactly(init);
      assert labels == init + [last];
      if NamesOf(labels).Some? {
        forall name ensures name in NamesOf(labels).value <==> exists x :: x in labels && GoesBy(x, name) {
          assert name in NamesOf(labels).value <==> name in NamesOf(init).value || GoesBy(last, name);
          if x :| x in labels && GoesBy(x, name) { assert x in init || x == last; }
          if name in NamesOf(init).value {
            var x :| x in init && GoesBy(x, name);
            assert x in labels;
          }
        }
      }
    }
  }

  /** The list of labels: that under "labels" if it is non-empty, else that of a Jira issue. */
  function LabelsAt(payload: Json): Json
    requires payload.Object?
  {
    if Truthy(At(payload, "labels")) then At(payload, "labels") else At(payload, "issue.fields.labels")
  }

  /**
   * A labels test over wanted labels passes exactly if one of them is the text or the name of a label of the payload.
   * Without a list of labels it fails; a label of another kind raises.
   */
  lemma LabelsTestExactly(payload: Json, wanted: seq<Json>)
    requires payload.Object? && WellFormed(payload) && DotFree(payload)
    ensures var r, labels := HasLabel(FlatOf(payload), Some(wanted)), LabelsAt(payload);
            && (!labels.List? ==> r == Some(false))
            && (labels.List? ==> (r.None? <==> exists x :: x in labels.items && !IsLabel(x)))
            && (labels.List? && r.Some? ==> (r.value <==> exists w, x :: w in wanted && x in labels.items && GoesBy(x, w)))
  {
    PathsAreWalked(payload, "labels");
    PathsAreWalked(payload, "issue.fields.labels");
    var labels := LabelsAt(payload);
    if labels.List? {
      NamesExactly(labels.items);
      assert Truthy(labels) || labels.items == [];
    }
    hide FlatEntries, Walk, Split, GoesBy;
  }

  /** The tree leaf and the flat key ask the same of the wanted labels; values that are no list of labels raise or never match. */
  lemma LabelsLeaf(py: Python, payload: Json, wanted: seq<Json>)
    requires payload.Object?
    ensures EvalLeaf(py, "labels", List(wanted), FlatOf(payload)) == HasLabel(FlatOf(payload), Some(wanted))
    ensures PassesFlat(py, FlatFilter(Some(List(wanted)), None, None, None), FlatOf(payload))
            == HasLabel(FlatOf(payload), Some(wanted))
  {
    hide FlatEntries, LabelNames;
  }

  // ---------------------------------------------------------------- the first of several paths

  /** The first of the paths with a value that counts as true. */
  function FirstTruthy(payload: Json, paths: seq<string>): Option<Json>
    requires payload.Object?
  {
    if paths == [] then None
    else if Truthy(At(payload, paths[0])) then Some(At(payload, paths[0]))
    else FirstTruthy(payload, paths[1..])
  }

  lemma {:induction false} FirstTruthyMeans(payload: Json, paths: seq<string>)
    requires payload.Object?
    ensures FirstTruthy(payload, paths).None? <==> forall i :: 0 <= i < |paths| ==> !Truthy(At(payload, paths[i]))
    ensures FirstTruthy(payload, paths).Some? ==>
              exists i :: 0 <= i < |paths| && FirstTruthy(payload, paths) == Some(At(payload, paths[i])) && Truthy(At(payload, paths[i]))
                          && forall j :: 0 <= j < i ==> !Truthy(At(payload, paths[j]))
  {
    hide At, Truthy;
    if paths != [] {
      FirstTruthyMeans(payload, paths[1..]);
      if Truthy(At(payload, paths[0])) {
        assert FirstTruthy(payload, paths) == Some(At(payload, paths[0]));
      } else {
        if FirstTruthy(payload, paths).Some? {
          var i :| 0 <= i < |paths[1..]| && FirstTruthy(payload, paths[1..]) == Some(At(payload, paths[1..][i]))
                   && Truthy(At(payload, paths[1..][i])) && forall j :: 0 <= j < i ==> !Truthy(At(payload, paths[1..][j]));
          forall j | 0 <= j < i + 1 ensures !Truthy(At(payload, paths[j])) {
            if j > 0 { assert paths[j] == paths[1..][j - 1]; }
          }
          assert paths[1..][i] == paths[i + 1];
        }
        if forall i :: 0 <= i < |paths[1..]| ==> !Truthy(At(payload, paths[1..][i])) {
          forall i | 0 <= i < |paths| ensures !Truthy(At(payload, paths[i])) {
            if i > 0 { assert paths[i] == paths[1..][i - 1]; }
          }
        } else {
          var i :| 0 <= i < |paths[1..]| && Truthy(At(payload, paths[1..][i]));
          assert paths[i + 1] == paths[1..][i];
        }
      }
    }
  }

  const TitlePaths := ["title", "issue_title", "object_attributes.title"]
  const AuthorPaths := ["author", "user.username", "object_attributes.author_id"]
  const BranchPaths := ["branch", "object_attributes.target_branch"]

  lemma TwoPaths(payload: Json, a: string, b: string)
    requires payload.Object?
    ensures FirstTruthy(payload, [a, b]) == if Truthy(At(payload, a)) then Some(At(payload, a))
                                            else if Truthy(At(payload, b)) then Some(At(payload, b)) else None
  {
    assert [a, b][1..] == [b] && [b][1..] == [];
    hide At, Truthy;
    assert FirstTruthy(payload, []) == None;
    assert FirstTruthy(payload, [b]) == if Truthy(At(payload, b)) then Some(At(payload, b)) else None;
  }

  lemma ThreePaths(payload: Json, a: string, b: string, c: string)
    requires payload.Object?
    ensures FirstTruthy(payload, [a, b, c]) == if Truthy(At(payload, a)) then Some(At(payload, a)) else FirstTruthy(payload, [b, c])
  {
    assert [a, b, c][1..] == [b, c];
    hide At, Truthy;
  }

  /** The title, and the author, are the first of their paths with a value, else what Jira has under its own. */
  lemma TitleAndAuthorExactly(payload: Json)
    requires payload.Object? && WellFormed(payload) && DotFree(payload)
    ensures FirstTruthy(payload, TitlePaths).Some? ==> TitleOf(FlatOf(payload)) == FirstTruthy(payload, TitlePaths).value
    ensures FirstTruthy(payload, TitlePaths).None? ==>
              TitleOf(FlatOf(payload)) == LookupOr(FlatOf(payload), "issue.fields.summary", Text(""))
    ensures FirstTruthy(payload, AuthorPaths).Some? ==> AuthorOf(FlatOf(payload)) == FirstTruthy(payload, AuthorPaths).value
    ensures FirstTruthy(payload, AuthorPaths).None? ==>
              AuthorOf(FlatOf(payload)) == LookupOr(FlatOf(payload), "issue.fields.reporter.name", Text(""))
  {
    TitleExactly(payload);
    AuthorExactly(payload);
    hide *;
  }

  lemma TitleExactly(payload: Json)
    requires payload.Object? && WellFormed(payload) && DotFree(payload)
    ensures var first, flat := FirstTruthy(payload, TitlePaths), FlatOf(payload);
            TitleOf(flat) == if first.Some? then first.value else LookupOr(flat, "issue.fields.summary", Text(""))
  {
    PathsAreWalked(payload, "title");
    PathsAreWalked(payload, "issue_title");
    PathsAreWalked(payload, "object_attributes.title");
    ThreePaths(payload, "title", "issue_title", "object_attributes.title");
    TwoPaths(payload, "issue_title", "object_attributes.title");
    hide At, FlatOf, Lookup, LookupOr, FirstTruthy;
  }

  lemma AuthorExactly(payload: Json)
    requires payload.Object? && WellFormed(payload) && DotFree(payload)
    ensures var first, flat := FirstTruthy(payload, AuthorPaths), FlatOf(payload);
            AuthorOf(flat) == if first.Some? then first.value else LookupOr(flat, "issue.fields.reporter.name", Text(""))
  {
    PathsAreWalked(payload, "author");
    PathsAreWalked(payload, "user.username");
    PathsAreWalked(payload, "object_attributes.author_id");
    ThreePaths(payload, "author", "user.username", "object_attributes.author_id");
    TwoPaths(payload, "user.username", "object_attributes.author_id");
    hide At, FlatOf, Lookup, LookupOr, FirstTruthy;
  }

  // ---------------------------------------------------------------- the tests

  /** The part occurs in the text. */
  ghost predicate OccursIn(text: string, part: string) {
    exists before, after :: text == before + part + after
  }

  lemma ContainsExactly(text: string, part: string)
    ensures Contains(text, part) <==> OccursIn(text, part)
  {
    if Contains(text, part) {
      var i :| 0 <= i <= |text| && part <= text[i..];
      assert text == text[..i] + part + text[i + |part|..];
    }
    if before, after :| text == before + part + after {
      assert text[|before|..] == part + after;
      assert part <= text[|before|..];
    }
  }

  /** A title test passes exactly if the part occurs in the title, without regard to case. */
  lemma TitleLeaf(py: Python, payload: Json, part: string)
    requires payload.Object?
    ensures var passes := OccursIn(py.lower(Str(py, TitleOf(FlatOf(payload)))), py.lower(part));
            && EvalLeaf(py, "title_contains", Text(part), FlatOf(payload)) == Some(passes)
            && PassesFlat(py, FlatFilter(None, None, Some(Text(part)), None), FlatOf(payload)) == Some(passes)
  {
    ContainsExactly(py.lower(Str(py, TitleOf(FlatOf(payload)))), py.lower(part));
    hide TitleOf, Contains, OccursIn, FlatEntries;
    assert part == "" ==> Or(Text(part), Text("")) == Text("");
  }

  /** An author test passes exactly if the author is none of those listed. */
  lemma AuthorLeaf(py: Python, payload: Json, authors: seq<Json>)
    requires payload.Object?
    ensures var passes := forall i :: 0 <= i < |authors| ==> Str(py, authors[i]) != Str(py, AuthorOf(FlatOf(payload)));
            && EvalLeaf(py, "author_not", List(authors), FlatOf(payload)) == Some(passes)
            && PassesFlat(py, FlatFilter(None, None, None, Some(List(authors))), FlatOf(payload)) == Some(passes)
  {
    hide AuthorOf, FlatEntries;
    var author := Str(py, AuthorOf(FlatOf(payload)));
    assert (forall a :: a in authors ==> Str(py, a) != author) <==> forall i :: 0 <= i < |authors| ==> Str(py, authors[i]) != author;
  }

  const HeadsPrefix := "refs/heads/"

  lemma {:induction false} NothingToCut(text: string, part: string)
    requires part != "" && !OccursIn(text, part)
    ensures Cut(text, part) == text
  {
    NotPrefix(text, part);
    hide OccursIn;
    if text != "" {
      NotInTail(text, part);
      NothingToCut(text[1..], part);
      assert text == [text[0]] + text[1..];
    }
  }

  lemma PrefixOccurs(text: string, part: string)
    requires part <= text
    ensures OccursIn(text, part)
  {
    assert text == "" + part + text[|part|..];
  }

  lemma NotPrefix(text: string, part: string)
    requires !OccursIn(text, part)
    ensures !(part <= text)
  {
    hide OccursIn;
    if part <= text { PrefixOccurs(text, part); }
  }

  lemma TailOccurs(text: string, part: string)
    requires text != "" && OccursIn(text[1..], part)
    ensures OccursIn(text, part)
  {
    var before, after :| text[1..] == before + part + after;
    assert text == ([text[0]] + before) + part + after;
  }

  lemma NotInTail(text: string, part: string)
    requires text != "" && !OccursIn(text, part)
    ensures !OccursIn(text[1..], part)
  {
    hide OccursIn;
    if OccursIn(text[1..], part) { TailOccurs(text, part); }
  }

  /**
   * A branch test passes exactly on the first branch the payload names; a payload that names none but has the ref of a
   * branch is on that branch, and one without a ref is on the empty one.
   */
  lemma BranchLeaf(py: Python, payload: Json, v: Json, name: string)
    requires payload.Object? && WellFormed(payload) && DotFree(payload)
    ensures FirstTruthy(payload, BranchPaths).Some? ==> OnBranch(FlatOf(payload), v) == Some(v == FirstTruthy(payload, BranchPaths).value)
    ensures FirstTruthy(payload, BranchPaths).None? && "ref" !in FlatOf(payload) ==> OnBranch(FlatOf(payload), v) == Some(v == Text(""))
    ensures FirstTruthy(payload, BranchPaths).None? && At(payload, "ref") == Text(HeadsPrefix + name) && !OccursIn(name, HeadsPrefix) ==>
              OnBranch(FlatOf(payload), v) == Some(v == Text(name))
    ensures EvalLeaf(py, "branch", v, FlatOf(payload)) == OnBranch(FlatOf(payload), v)
    ensures PassesFlat(py, FlatFilter(None, Some(v), None, None), FlatOf(payload)) == OnBranch(FlatOf(payload), v)
  {
    PathsAreWalked(payload, "branch");
    PathsAreWalked(payload, "object_attributes.target_branch");
    PathsAreWalked(payload, "ref");
    TwoPaths(payload, "branch", "object_attributes.target_branch");
    hide At, FlatEntries, FirstTruthy;
    if !OccursIn(name, HeadsPrefix) {
      NothingToCut(name, HeadsPrefix);
      CutPrefix(name);
    }
    hide Cut, OccursIn;
  }

  lemma CutPrefix(name: string)
    ensures Cut(HeadsPrefix + name, HeadsPrefix) == Cut(name, HeadsPrefix)
  {
    assert (HeadsPrefix + name)[|HeadsPrefix|..] == name;
  }

  // ---------------------------------------------------------------- Python values

  /** Empty values and null count as false; lists give their items, texts their characters, objects their keys. */
  lemma ValuesExactly(py: Python, text: string, items: seq<Json>, entries: seq<Entry>, truthy: bool, shown: string)
    ensures !Truthy(Null) && (Truthy(Text(text)) <==> |text| > 0) && (Truthy(List(items)) <==> |items| > 0)
    ensures (Truthy(Object(entries)) <==> |entries| > 0) && (Truthy(Scalar(truthy, shown)) <==> truthy)
    ensures Items(Null) == None && Items(Scalar(truthy, shown)) == None && Items(List(items)) == Some(items)
    ensures Items(Text(text)).Some? && |Items(Text(text)).value| == |text|
            && forall i :: 0 <= i < |text| ==> Items(Text(text)).value[i] == Text([text[i]])
    ensures Items(Object(entries)).Some? && |Items(Object(entries)).value| == |entries|
            && forall i :: 0 <= i < |entries| ==> Items(Object(entries)).value[i] == Text(entries[i].key)
    ensures Str(py, Null) == "None" && Str(py, Text(text)) == text && Str(py, Scalar(truthy, shown)) == shown
  {
  }
}
