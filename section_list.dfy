/**
 * The ordered section list of a resume and the edits both stores make to it:
 * find by id, filter out, duplicate after, update a field, swap with a neighbour.
 * Sections are addressed by id, never by content.
 */
module SectionList {
  import opened ResumeTypes

  /** Some section carries this id. */
  predicate Has(s: seq<Section>, id: string) {
    exists j :: 0 <= j < |s| && s[j].id == id
  }

  /** No two sections share an id. */
  predicate UniqueIds(s: seq<Section>) {
    forall i, j :: 0 <= i < j < |s| ==> s[i].id != s[j].id
  }

  /** `sections.findIndex(s => s.id === id)`: the first position with that id, or -1. */
  function IndexOf(s: seq<Section>, id: string): (r: int)
    ensures -1 <= r < |s|
    ensures r == -1 <==> !Has(s, id)
    ensures 0 <= r ==> s[r].id == id && forall j :: 0 <= j < r ==> s[j].id != id
  {
    if s == [] then -1
    else if s[0].id == id then 0
    else
      var k := IndexOf(s[1..], id);
      if k == -1 then -1 else k + 1
  }

  /** `sections.filter(section => section.id !== id)`. */
  function Without(s: seq<Section>, id: string): (r: seq<Section>)
    ensures forall x :: x in r <==> x in s && x.id != id
    ensures !Has(r, id)
    ensures !Has(s, id) ==> r == s
    ensures Has(s, id) ==> |r| < |s|
    ensures |r| <= |s|
  {
    if s == [] then []
    else (if s[0].id == id then [] else [s[0]]) + Without(s[1..], id)
  }

  /** Filtering works element by element, so it keeps the relative order of what remains. */
  lemma {:induction false} WithoutAppend(a: seq<Section>, b: seq<Section>, id: string)
    ensures Without(a + b, id) == Without(a, id) + Without(b, id)
  {
    if a == [] {
      assert a + b == b;
    } else {
      assert (a + b)[1..] == a[1..] + b;
      WithoutAppend(a[1..], b, id);
    }
  }

  /** The id a duplicate receives: the source id, a dash and the clock reading. */
  function CopyId(id: string, now: nat): (r: string)
    ensures |r| > |id| && r[..|id|] == id && r[|id|] == '-'
  {
    id + "-" + DecimalString(now)
  }

  /** Copies of one section made at different clock readings get different ids. */
  lemma CopyIdInjective(id: string, a: nat, b: nat)
    requires CopyId(id, a) == CopyId(id, b)
    ensures a == b
  {
    var k := |id| + 1;
    assert DecimalString(a) == CopyId(id, a)[k..] == CopyId(id, b)[k..] == DecimalString(b);
    DecimalStringInjective(a, b);
  }

  /**
   * `duplicateSection`: a copy of the first section with this id, renamed to
   * `CopyId(id, now)`, is spliced in directly after it; nothing happens when the id is absent.
   */
  function Duplicated(s: seq<Section>, id: string, now: nat): (r: seq<Section>)
    ensures !Has(s, id) ==> r == s
    ensures Has(s, id) ==>
      var i := IndexOf(s, id);
      && |r| == |s| + 1
      && r[i + 1].id == CopyId(id, now)
      && r[i + 1].title == s[i].title && r[i + 1].content == s[i].content
      && (forall j :: 0 <= j <= i ==> r[j] == s[j])
      && (forall j :: i + 1 < j < |r| ==> r[j] == s[j - 1])
    ensures Has(s, id) ==> multiset(r) == multiset(s) + multiset{s[IndexOf(s, id)].(id := CopyId(id, now))}
  {
    var i := IndexOf(s, id);
    if i < 0 then s
    else
      assert s == s[..i + 1] + s[i + 1..];
      s[..i + 1] + [s[i].(id := CopyId(id, now))] + s[i + 1..]
  }

  /** Deleting the fresh copy right after duplicating restores the list exactly. */
  lemma {:induction false} DeleteUndoesDuplicate(s: seq<Section>, id: string, now: nat)
    requires !Has(s, CopyId(id, now))
    ensures Without(Duplicated(s, id, now), CopyId(id, now)) == s
  {
    var nid := CopyId(id, now);
    var i := IndexOf(s, id);
    if i >= 0 {
      var pre, post := s[..i + 1], s[i + 1..];
      var copy := s[i].(id := nid);
      assert !Has(pre, nid) by {
        forall j | 0 <= j < |pre| ensures pre[j].id != nid { assert pre[j] == s[j]; }
      }
      assert !Has(post, nid) by {
        forall j | 0 <= j < |post| ensures post[j].id != nid { assert post[j] == s[i + 1 + j]; }
      }
      calc {
        Without(Duplicated(s, id, now), nid);
        Without(pre + [copy] + post, nid);
        { WithoutAppend(pre + [copy], post, nid); }
        Without(pre + [copy], nid) + Without(post, nid);
        { WithoutAppend(pre, [copy], nid); }
        Without(pre, nid) + Without([copy], nid) + post;
        pre + [] + post;
        s;
      }
    }
  }

  /**
   * `updateSection`: the named field of the FIRST section with this id (what `find`
   * returns) is set; every other section and field keeps its value.
   */
  function WithSectionField(s: seq<Section>, id: string, f: SectionField, v: string): (r: seq<Section>)
    ensures |r| == |s|
    ensures forall j :: 0 <= j < |s| ==> r[j].id == s[j].id
    ensures !Has(s, id) ==> r == s
    ensures Has(s, id) ==>
      var i := IndexOf(s, id);
      && FieldOf(r[i], f) == v
      && (forall g :: g != f ==> FieldOf(r[i], g) == FieldOf(s[i], g))
      && (forall j :: 0 <= j < |s| && j != i ==> r[j] == s[j])
  {
    var i := IndexOf(s, id);
    if i < 0 then s else s[i := WithField(s[i], f, v)]
  }

  /** Two lists with the same ids position by position find an id at the same place. */
  lemma {:induction false} IndexOfSameIds(s: seq<Section>, t: seq<Section>, id: string)
    requires |s| == |t|
    requires forall j :: 0 <= j < |s| ==> s[j].id == t[j].id
    ensures IndexOf(s, id) == IndexOf(t, id)
  {
    if s != [] && s[0].id != id {
      IndexOfSameIds(s[1..], t[1..], id);
    }
  }

  /** Reading the field back after `updateSection` gives exactly the value written. */
  lemma ReadBackSectionField(s: seq<Section>, id: string, f: SectionField, v: string)
    requires Has(s, id)
    ensures var r := WithSectionField(s, id, f, v);
      IndexOf(r, id) == IndexOf(s, id) && FieldOf(r[IndexOf(r, id)], f) == v
  {
    IndexOfSameIds(s, WithSectionField(s, id, f, v), id);
  }

  /** `moveSectionUp`: the first section with this id trades places with its predecessor. */
  function MovedUp(s: seq<Section>, id: string): (r: seq<Section>)
    ensures |r| == |s| && multiset(r) == multiset(s)
    ensures multiset(Ids(r)) == multiset(Ids(s))
    ensures var i := IndexOf(s, id);
      if i > 0 then
        && r[i - 1] == s[i] && r[i] == s[i - 1]
        && forall j :: 0 <= j < |s| && j != i - 1 && j != i ==> r[j] == s[j]
      else r == s
  {
    var i := IndexOf(s, id);
    if i > 0 then
      var r := s[i := s[i - 1]][i - 1 := s[i]];
      SwapIds(s, i, i - 1);
      r
    else s
  }

  /**
   * `moveSectionDown` as it is meant to behave: the first section with this id trades
   * places with its successor; a missing id or the last position changes nothing.
   */
  function MovedDown(s: seq<Section>, id: string): (r: seq<Section>)
    ensures |r| == |s| && multiset(r) == multiset(s)
    ensures multiset(Ids(r)) == multiset(Ids(s))
    ensures var i := IndexOf(s, id);
      if 0 <= i < |s| - 1 then
        && r[i] == s[i + 1] && r[i + 1] == s[i]
        && forall j :: 0 <= j < |s| && j != i && j != i + 1 ==> r[j] == s[j]
      else r == s
    ensures !Has(s, id) ==> r == s
  {
    var i := IndexOf(s, id);
    if 0 <= i < |s| - 1 then
      var r := s[i := s[i + 1]][i + 1 := s[i]];
      SwapIds(s, i, i + 1);
      r
    else s
  }

  /** Moving a section up and then down again is the identity. */
  lemma MoveUpThenDown(s: seq<Section>, id: string)
    requires IndexOf(s, id) > 0
    ensures MovedDown(MovedUp(s, id), id) == s
  {
    var i := IndexOf(s, id);
    var r := MovedUp(s, id);
    assert IndexOf(r, id) == i - 1 by {
      IndexOfAt(r, id, i - 1);
    }
  }

  /** Moving a section down and then up again is the identity when ids are unique. */
  lemma MoveDownThenUp(s: seq<Section>, id: string)
    requires UniqueIds(s)
    requires 0 <= IndexOf(s, id) < |s| - 1
    ensures MovedUp(MovedDown(s, id), id) == s
  {
    var i := IndexOf(s, id);
    var r := MovedDown(s, id);
    assert IndexOf(r, id) == i + 1 by {
      IndexOfAt(r, id, i + 1);
    }
  }

  /** An id found at position k, and nowhere before it, is found by `IndexOf` at k. */
  lemma {:induction false} IndexOfAt(s: seq<Section>, id: string, k: nat)
    requires k < |s| && s[k].id == id
    requires forall j :: 0 <= j < k ==> s[j].id != id
    ensures IndexOf(s, id) == k
  {
    if k > 0 {
      IndexOfAt(s[1..], id, k - 1);
    }
  }

  /** Swapping two sections swaps their ids and keeps the multiset of ids. */
  lemma SwapIds(s: seq<Section>, i: nat, j: nat)
    requires i < |s| && j < |s|
    ensures multiset(Ids(s[i := s[j]][j := s[i]])) == multiset(Ids(s))
  {
    var ids := Ids(s);
    assert Ids(s[i := s[j]][j := s[i]]) == ids[i := ids[j]][j := ids[i]];
    SwapKeepsMultiset(ids, i, j);
  }

  lemma SwapKeepsMultiset<T>(s: seq<T>, i: nat, j: nat)
    requires i < |s| && j < |s|
    ensures multiset(s[i := s[j]][j := s[i]]) == multiset(s)
  {
  }

  /** Deleting keeps section ids unique. */
  lemma {:induction false} WithoutKeepsUnique(s: seq<Section>, id: string)
    requires UniqueIds(s)
    ensures UniqueIds(Without(s, id))
  {
    if s != [] {
      var rest := Without(s[1..], id);
      WithoutKeepsUnique(s[1..], id);
      if s[0].id != id {
        var r := Without(s, id);
        assert r == [s[0]] + rest;
        forall a, b | 0 <= a < b < |r| ensures r[a].id != r[b].id {
          if a == 0 {
            assert r[b] == rest[b - 1] && rest[b - 1] in rest;
            var k :| 0 <= k < |s[1..]| && s[1..][k] == r[b];
            assert s[k + 1] == r[b];
          } else {
            assert r[a] == rest[a - 1] && r[b] == rest[b - 1];
          }
        }
      }
    }
  }

  /** With unique ids, deleting a present section shortens the list by exactly one. */
  lemma {:induction false} WithoutRemovesOne(s: seq<Section>, id: string)
    requires UniqueIds(s) && Has(s, id)
    ensures |Without(s, id)| == |s| - 1
  {
    if s[0].id == id {
      assert !Has(s[1..], id) by {
        forall j | 0 <= j < |s[1..]| ensures s[1..][j].id != id { assert s[1..][j] == s[j + 1]; }
      }
    } else {
      var j :| 0 <= j < |s| && s[j].id == id;
      assert s[1..][j - 1].id == id;
      WithoutRemovesOne(s[1..], id);
    }
  }

  /** Duplicating keeps section ids unique as long as the copy's id is not already taken. */
  lemma DuplicatedKeepsUnique(s: seq<Section>, id: string, now: nat)
    requires UniqueIds(s) && !Has(s, CopyId(id, now))
    ensures UniqueIds(Duplicated(s, id, now))
  {
    var r := Duplicated(s, id, now);
    if Has(s, id) {
      var i := IndexOf(s, id);
      // the copy sits at i + 1; past it every original section is shifted by one
      forall a, b | 0 <= a < b < |r| ensures r[a].id != r[b].id {
        if a == i + 1 {
          assert r[b] == s[b - 1];
        } else if b == i + 1 {
          assert r[a] == s[a];
        } else {
          var oa := if a <= i then a else a - 1;
          var ob := if b <= i then b else b - 1;
          assert r[a] == s[oa] && r[b] == s[ob] && oa < ob;
        }
      }
    }
  }

  /** Editing a section's title or content keeps section ids unique. */
  lemma WithSectionFieldKeepsUnique(s: seq<Section>, id: string, f: SectionField, v: string)
    requires UniqueIds(s)
    ensures UniqueIds(WithSectionField(s, id, f, v))
  {
  }

  /** Moving a section up or down keeps section ids unique. */
  lemma MovesKeepUnique(s: seq<Section>, id: string)
    requires UniqueIds(s)
    ensures UniqueIds(MovedUp(s, id)) && UniqueIds(MovedDown(s, id))
  {
  }

  /** A move requested by the editor's up and down arrows. */
  datatype Move = Up(id: string) | Down(id: string)

  /** Any run of moves only reorders the list: the same sections, each as often as before. */
  function ApplyMoves(s: seq<Section>, moves: seq<Move>): (r: seq<Section>)
    ensures |r| == |s| && multiset(r) == multiset(s)
    ensures multiset(Ids(r)) == multiset(Ids(s))
    decreases |moves|
  {
    if moves == [] then s
    else
      var next := match moves[0]
        case Up(id) => MovedUp(s, id)
        case Down(id) => MovedDown(s, id);
      ApplyMoves(next, moves[1..])
  }

  /** Any run of moves keeps section ids unique. */
  lemma {:induction false} ApplyMovesKeepsUnique(s: seq<Section>, moves: seq<Move>)
    requires UniqueIds(s)
    ensures UniqueIds(ApplyMoves(s, moves))
    decreases |moves|
  {
    if moves != [] {
      MovesKeepUnique(s, moves[0].id);
      var next := match moves[0]
        case Up(id) => MovedUp(s, id)
        case Down(id) => MovedDown(s, id);
      ApplyMovesKeepsUnique(next, moves[1..]);
    }
  }

  /** The ids of the sections, in order. */
  function Ids(s: seq<Section>): seq<string> {
    seq(|s|, j requires 0 <= j < |s| => s[j].id)
  }

  /**
   * `moveSectionDown` as written: `findIndex` yields -1 for a missing id, and
   * `-1 < length - 1` holds for any non-empty list, so the swap runs with index -1:
   * `sections[0]` receives `sections[-1]`, which is `undefined`. A slot is `None`
   * once it holds `undefined`.
   */
  function MoveDownAsWritten(s: seq<Section>, id: string): (r: seq<Option<Section>>)
    ensures |r| == |s|
    ensures Has(s, id) ==> forall j :: 0 <= j < |s| ==> r[j] == Some(MovedDown(s, id)[j])
    ensures !Has(s, id) && |s| > 0 ==> r[0] == None
    ensures !Has(s, id) ==> forall j :: 1 <= j < |s| ==> r[j] == Some(s[j])
  {
    var slots := seq(|s|, j requires 0 <= j < |s| => Some(s[j]));
    var index := IndexOf(s, id);
    if index < |s| - 1 then
      if index >= 0 then slots[index := slots[index + 1]][index + 1 := slots[index]]
      else slots[0 := None]
    else slots
  }

  /** A one-section list and an unknown id: the as-written swap loses the only section. */
  lemma MoveDownAsWrittenLosesSection()
    ensures var s := [Section("summary", "Summary", "text")];
      MoveDownAsWritten(s, "missing") == [None] && MovedDown(s, "missing") == s
  {
    var s := [Section("summary", "Summary", "text")];
    assert !Has(s, "missing");
  }
}
