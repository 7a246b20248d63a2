/**
 * The table `read_sheet` works on, and the step that makes sure all eleven
 * canonical columns exist: every canonical name the table lacks is appended
 * as a new column whose cells are all "".
 */
module Schema {
  import opened Headers

  /** A table of text cells: the column headers and the rows, one cell per column. */
  datatype Frame = Frame(columns: seq<string>, rows: seq<seq<string>>)

  predicate Rectangular(f: Frame)
  {
    forall k :: 0 <= k < |f.rows| ==> |f.rows[k]| == |f.columns|
  }

  /** The table `df.rename(columns=col_map)` produces: every header replaced by its classification. */
  function Renamed(f: Frame): (g: Frame)
    ensures |g.columns| == |f.columns| && g.rows == f.rows
    ensures forall i :: 0 <= i < |f.columns| ==> g.columns[i] == Classify(f.columns[i])
  {
    Frame(seq(|f.columns|, i requires 0 <= i < |f.columns| => Classify(f.columns[i])), f.rows)
  }

  /** `n` empty cells. */
  function Blanks(n: nat): (r: seq<string>)
    ensures |r| == n && forall j :: 0 <= j < n ==> r[j] == ""
  {
    if n == 0 then [] else Blanks(n - 1) + [""]
  }

  /** The names of `names`, in order, that are not headers of `columns`. */
  function MissingFrom(columns: seq<string>, names: seq<string>): (r: seq<string>)
    ensures forall c :: c in r <==> c in names && c !in columns
    decreases |names|
  {
    if names == [] then []
    else
      var last := names[|names| - 1];
      MissingFrom(columns, names[..|names| - 1]) + (if last in columns then [] else [last])
  }

  lemma {:induction false} NoneMissing(columns: seq<string>, names: seq<string>)
    requires forall c :: c in names ==> c in columns
    ensures MissingFrom(columns, names) == []
    decreases |names|
  {
    if names != [] {
      NoneMissing(columns, names[..|names| - 1]);
    }
  }

  /** `f` with the columns `added` appended, each filled with "" (`df[col] = ""` adds one). */
  function Extend(f: Frame, added: seq<string>): (g: Frame)
    ensures g.columns == f.columns + added && |g.rows| == |f.rows|
    ensures forall k :: 0 <= k < |f.rows| ==> g.rows[k] == f.rows[k] + Blanks(|added|)
  {
    Frame(f.columns + added, seq(|f.rows|, k requires 0 <= k < |f.rows| => f.rows[k] + Blanks(|added|)))
  }

  /** The table after the "ensure required columns" loop of `read_sheet`. */
  function Complete(f: Frame): Frame
  {
    Extend(f, MissingFrom(f.columns, Canonical))
  }

  lemma CanonicalDistinct()
    ensures forall i, j :: 0 <= i < j < |Canonical| ==> Canonical[i] != Canonical[j]
  {
  }

  lemma ExtendTwice(f: Frame, added: seq<string>, c: string)
    ensures Extend(Extend(f, added), [c]) == Extend(f, added + [c])
  {
    var g := Extend(Extend(f, added), [c]);
    var h := Extend(f, added + [c]);
    assert g.columns == h.columns;
    forall k | 0 <= k < |f.rows| ensures g.rows[k] == h.rows[k] {
      assert Blanks(|added|) + [""] == Blanks(|added + [c]|);
    }
  }

  lemma ExtendNothing(f: Frame)
    ensures Extend(f, []) == f
  {
    forall k | 0 <= k < |f.rows| ensures f.rows[k] + Blanks(0) == f.rows[k] { }
  }

  /** One turn of the loop below: the k-th canonical name is added exactly when it is missing. */
  lemma MissingStep(f: Frame, g: Frame, k: nat)
    requires k < |Canonical|
    requires g == Extend(f, MissingFrom(f.columns, Canonical[..k]))
    ensures (if Canonical[k] in g.columns then g else Extend(g, [Canonical[k]]))
      == Extend(f, MissingFrom(f.columns, Canonical[..k + 1]))
  {
    var col := Canonical[k];
    var m := MissingFrom(f.columns, Canonical[..k]);
    assert Canonical[..k + 1][..k] == Canonical[..k];
    assert MissingFrom(f.columns, Canonical[..k + 1]) == m + (if col in f.columns then [] else [col]);
    CanonicalDistinct();
    assert col !in Canonical[..k];
    assert col !in m;
    assert col in g.columns <==> col in f.columns;
    if col !in f.columns {
      ExtendTwice(f, m, col);
    } else {
      assert m + [] == m;
    }
  }

  /**
   * The loop over the canonical names in `read_sheet`: each one that is not a
   * header yet is added as a column of "".
   */
  method AddMissingColumns(f: Frame) returns (g: Frame)
    ensures g == Complete(f)
  {
    g := f;
    assert Canonical[..0] == [];
    ExtendNothing(f);
    var k := 0;
    while k < |Canonical|
      invariant 0 <= k <= |Canonical|
      invariant g == Extend(f, MissingFrom(f.columns, Canonical[..k]))
    {
      var col := Canonical[k];
      MissingStep(f, g, k);
      if col !in g.columns {
        g := Extend(g, [col]);  // df[col] = ""
      }
      k := k + 1;
    }
    assert Canonical[..k] == Canonical;
  }

  // ---- What completion guarantees ----

  /** Every canonical column is present afterwards. */
  lemma CompleteHasCanonical(f: Frame)
    ensures forall c :: c in Canonical ==> c in Complete(f).columns
  {
  }

  /** The headers and cells the table already had are kept, in place. */
  lemma CompleteKeeps(f: Frame)
    ensures Complete(f).columns[..|f.columns|] == f.columns
    ensures |Complete(f).rows| == |f.rows|
    ensures forall k :: 0 <= k < |f.rows| ==> Complete(f).rows[k][..|f.rows[k]|] == f.rows[k]
  {
    var g := Complete(f);
    assert g.columns[..|f.columns|] == f.columns;
    forall k | 0 <= k < |f.rows| ensures g.rows[k][..|f.rows[k]|] == f.rows[k] { }
  }

  /** The columns added are exactly the missing canonical ones, and all their cells are "". */
  lemma CompleteFills(f: Frame)
    requires Rectangular(f)
    ensures Rectangular(Complete(f))
    ensures forall c :: c in Complete(f).columns <==> c in f.columns || c in Canonical
    ensures forall k, j :: 0 <= k < |f.rows| && |f.columns| <= j < |Complete(f).columns| ==> Complete(f).rows[k][j] == ""
  {
  }

  /** A table that has every canonical column is left unchanged. */
  lemma CompleteOfComplete(f: Frame)
    requires forall c :: c in Canonical ==> c in f.columns
    ensures Complete(f) == f
  {
    var g := Complete(f);
    NoneMissing(f.columns, Canonical);
    forall k | 0 <= k < |f.rows| ensures g.rows[k] == f.rows[k] {
      assert f.rows[k] + [] == f.rows[k];
    }
  }

  /** Completing twice is completing once. */
  lemma CompleteIdempotent(f: Frame)
    ensures Complete(Complete(f)) == Complete(f)
  {
    CompleteHasCanonical(f);
    CompleteOfComplete(Complete(f));
  }
}
