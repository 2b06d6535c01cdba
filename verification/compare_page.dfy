/**
 * The selection of the comparison page: a list of at most four distinct,
 * normalised country codes, grown by `addCountry` and shrunk by
 * `removeCountry`.
 */
module ComparePage {
  import opened Wrappers
  import opened Seqs
  import opened JsText

  const MaxSelected := 4

  /** `input?.value || ''`. */
  function InputText(input: Option<string>): string
  {
    if input.Some? then input.value else []
  }

  /** The guard of `addCountry`. */
  predicate Accepts(sel: seq<string>, iso: string)
  {
    iso != [] && |iso| >= 2 && iso !in sel && |sel| < MaxSelected
  }

  /** The selection after `addCountry` with the normalised code `iso`. */
  function Added(sel: seq<string>, iso: string): seq<string>
  {
    if Accepts(sel, iso) then sel + [iso] else sel
  }

  function IsOther(iso: string): string -> bool
  {
    s => s != iso
  }

  /** `selected.filter(s => s !== iso)`. */
  function Without(sel: seq<string>, iso: string): seq<string>
  {
    Filter(sel, IsOther(iso))
  }

  ghost predicate NoDuplicates(sel: seq<string>)
  {
    forall i, j :: 0 <= i < j < |sel| ==> sel[i] != sel[j]
  }

  /** A code as `addCountry` lets it in: two characters or more, upper-case, no white space at the ends. */
  ghost predicate WellFormedCode(c: string)
  {
    |c| >= 2 && IsUpperCase(c) && !IsWhiteSpace(c[0]) && !IsWhiteSpace(c[|c| - 1])
  }

  ghost predicate SelectionOk(sel: seq<string>)
  {
    && NoDuplicates(sel)
    && |sel| <= MaxSelected
    && forall c :: c in sel ==> WellFormedCode(c)
  }

  /** The selection the page starts with is well formed. */
  lemma InitialSelectionOk()
    ensures SelectionOk(["IND", "CHN", "PAK"])
  {
    var sel := ["IND", "CHN", "PAK"];
    forall c | c in sel ensures WellFormedCode(c) {
      assert c == "IND" || c == "CHN" || c == "PAK";
    }
  }

  lemma AppendKeepsSelectionOk(sel: seq<string>, iso: string)
    requires SelectionOk(sel) && Accepts(sel, iso)
    requires IsUpperCase(iso) && !IsWhiteSpace(iso[0]) && !IsWhiteSpace(iso[|iso| - 1])
    ensures SelectionOk(sel + [iso])
  {
    var out := sel + [iso];
    forall i, j | 0 <= i < j < |out| ensures out[i] != out[j] {
      if j == |sel| {
        assert out[i] in sel;
      } else {
        assert out[i] == sel[i] && out[j] == sel[j];
      }
    }
    assert forall c :: c in out ==> c in sel || c == iso;
  }

  /** A successful add appends the normalised code; a refused one changes nothing; both keep the selection well formed. */
  lemma AddedKeepsSelectionOk(sel: seq<string>, input: string)
    requires SelectionOk(sel)
    ensures var iso := TrimUpper(input);
            && SelectionOk(Added(sel, iso))
            && (Accepts(sel, iso) <==> |iso| >= 2 && iso !in sel && |sel| < MaxSelected)
            && |Added(sel, iso)| == |sel| + (if Accepts(sel, iso) then 1 else 0)
  {
    var iso := TrimUpper(input);
    if Accepts(sel, iso) {
      TrimUpperClean(input);
      AppendKeepsSelectionOk(sel, iso);
    }
  }

  lemma {:induction false} WithoutKeepsNoDuplicates(sel: seq<string>, iso: string)
    requires NoDuplicates(sel)
    ensures NoDuplicates(Without(sel, iso))
  {
    if sel != [] {
      assert NoDuplicates(sel[1..]) by {
        forall i, j | 0 <= i < j < |sel[1..]| ensures sel[1..][i] != sel[1..][j] {
          assert sel[1..][i] == sel[i + 1] && sel[1..][j] == sel[j + 1];
        }
      }
      WithoutKeepsNoDuplicates(sel[1..], iso);
      var rest := Without(sel[1..], iso);
      forall y | y in rest ensures y != sel[0] {
        var j :| 0 <= j < |sel[1..]| && sel[1..][j] == y;
        assert sel[j + 1] == y;
      }
    }
  }

  /** `removeCountry` drops exactly the given code, keeps the others in order and keeps the selection well formed. */
  lemma WithoutRemoves(sel: seq<string>, iso: string)
    ensures iso !in Without(sel, iso)
    ensures forall c :: c != iso ==> (c in Without(sel, iso) <==> c in sel)
    ensures IsSubsequence(Without(sel, iso), sel)
    ensures SelectionOk(sel) ==> SelectionOk(Without(sel, iso))
  {
    FilterIsSubsequence(sel, IsOther(iso));
    if SelectionOk(sel) {
      WithoutKeepsNoDuplicates(sel, iso);
    }
  }

  /** Removing a code that is not selected changes nothing. */
  lemma {:induction false} RemoveAbsent(sel: seq<string>, iso: string)
    requires iso !in sel
    ensures Without(sel, iso) == sel
  {
    if sel != [] {
      RemoveAbsent(sel[1..], iso);
      assert sel == [sel[0]] + sel[1..];
    }
  }

  lemma {:induction false} WithoutAppend(a: seq<string>, b: seq<string>, iso: string)
    ensures Without(a + b, iso) == Without(a, iso) + Without(b, iso)
  {
    if a != [] {
      assert (a + b)[0] == a[0];
      assert (a + b)[1..] == a[1..] + b;
      WithoutAppend(a[1..], b, iso);
    } else {
      assert a + b == b;
    }
  }

  /** Adding a new code and removing it again restores the selection. */
  lemma AddThenRemove(sel: seq<string>, iso: string)
    requires iso !in sel
    ensures Without(Added(sel, iso), iso) == sel
  {
    RemoveAbsent(sel, iso);
    if Accepts(sel, iso) {
      WithoutAppend(sel, [iso], iso);
      assert Without([iso], iso) == [];
    }
  }

  /** The page's `selected` list. */
  class Selection {
    var selected: seq<string>

    ghost predicate Valid()
      reads this
    {
      SelectionOk(selected)
    }

    constructor ()
      ensures selected == ["IND", "CHN", "PAK"]
      ensures Valid()
    {
      selected := ["IND", "CHN", "PAK"];
      InitialSelectionOk();
    }

    /** `addCountry()`, reading the input box's value. */
    method AddCountry(input: Option<string>)
      requires Valid()
      modifies this
      ensures Valid()
      ensures selected == Added(old(selected), TrimUpper(InputText(input)))
    {
      var iso := TrimUpper(InputText(input));
      AddedKeepsSelectionOk(selected, InputText(input));
      if iso != [] && |iso| >= 2 && iso !in selected && |selected| < MaxSelected {
        selected := selected + [iso];
      }
    }

    /** `removeCountry(iso)`. */
    method RemoveCountry(iso: string)
      requires Valid()
      modifies this
      ensures Valid()
      ensures selected == Without(old(selected), iso)
    {
      WithoutRemoves(selected, iso);
      selected := Filter(selected, IsOther(iso));
    }
  }
}
