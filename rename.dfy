/** The header rename step: every column header is lower-cased and, by a
    fixed priority, recognised as the date, the dozens or the total-price
    column; recognised headers are renamed to a canonical name and every
    other header keeps its own. */
module ColumnRename {
  import opened Wrappers
  import opened Text

  /** The three semantic columns the rename step recognises. */
  datatype Target = Date | Dozens | TotalPrice

  /** The canonical name a recognised column is renamed to. */
  function TargetName(t: Target): string
  {
    match t
    case Date => "Date"
    case Dozens => "Dozens"
    case TotalPrice => "TotalPrice"
  }

  /** Which semantic column a header is: "date" wins over "dozen", which
      wins over "price", all tested on the lower-cased header. */
  function Classify(header: string): Option<Target>
  {
    var low := Lower(header);
    if Contains(low, "date") then Some(Date)
    else if Contains(low, "dozen") then Some(Dozens)
    else if Contains(low, "price") then Some(TotalPrice)
    else None
  }

  /** The lower-cased header has `word` at some position. */
  ghost predicate Mentions(header: string, word: string)
  {
    exists i :: OccursAt(Lower(header), word, i)
  }

  /** The classification in terms of where the key words occur: a header
      mentioning "date" is the date column whatever else it mentions; one
      mentioning "dozen" but not "date" is the dozens column; one mentioning
      "price" and neither of the others is the total-price column; a header
      mentioning none of the three is not recognised. */
  lemma ClassifyByKeyWords(header: string)
    ensures Classify(header) == Some(Date) <==> Mentions(header, "date")
    ensures Classify(header) == Some(Dozens) <==>
              !Mentions(header, "date") && Mentions(header, "dozen")
    ensures Classify(header) == Some(TotalPrice) <==>
              !Mentions(header, "date") && !Mentions(header, "dozen") && Mentions(header, "price")
    ensures Classify(header) == None <==>
              !Mentions(header, "date") && !Mentions(header, "dozen") && !Mentions(header, "price")
  {
    ContainsIff(Lower(header), "date");
    ContainsIff(Lower(header), "dozen");
    ContainsIff(Lower(header), "price");
  }

  /** Classification ignores case: two headers that agree letter by letter
      up to case are classified alike. */
  lemma ClassifyIgnoresCase(h1: string, h2: string)
    requires |h1| == |h2|
    requires forall i :: 0 <= i < |h1| ==> ToLower(h1[i]) == ToLower(h2[i])
    ensures Classify(h1) == Classify(h2)
  {
    assert Lower(h1) == Lower(h2);
  }

  /** Classification depends only on the lower-cased header. */
  lemma ClassifyLowered(header: string)
    ensures Classify(Lower(header)) == Classify(header)
  {
    LowerIdempotent(header);
  }

  /** A canonical name is recognised as its own column, so renaming it
      again does nothing. */
  lemma TargetNameClassifies(t: Target)
    ensures Classify(TargetName(t)) == Some(t)
  {
    var h := TargetName(t);
    match t
    case Date =>
      assert Lower(h) == "date" by { LowerAt(h, "date"); }
      assert OccursAt(Lower(h), "date", 0);
      ContainsIff(Lower(h), "date");
    case Dozens =>
      assert Lower(h) == "dozens" by { LowerAt(h, "dozens"); }
      assert OccursAt(Lower(h), "dozen", 0);
      ContainsIff(Lower(h), "dozen");
      AbsentCharacter(Lower(h), "date", 'a');
    case TotalPrice => TotalPriceNameClassifies(h);
  }

  /** The canonical price name is recognised as the total-price column.
      The name is a parameter equal to the literal, not the literal itself,
      so that the verifier does not unfold `Lower` letter by letter on it;
      the parameter carries no other meaning. */
  lemma TotalPriceNameClassifies(h: string)
    requires h == "TotalPrice"
    ensures Classify(h) == Some(TotalPrice)
  {
    LowerTotalPrice(h);
    assert OccursAt(Lower(h), "price", 5);
    ClassifyAsTotalPrice(h, 5);
  }

  /** The canonical price name, lower-cased. As above, the parameter only
      stands for the literal, to keep the proof small. */
  lemma LowerTotalPrice(h: string)
    requires h == "TotalPrice"
    ensures Lower(h) == "totalprice"
  {
    assert ToLower(h[0]) == 't' && ToLower(h[5]) == 'p';
    LowerAt(h, "totalprice");
  }

  /** A header whose lower-cased form has no 'd' and mentions "price" is
      the total-price column. */
  lemma ClassifyAsTotalPrice(header: string, i: int)
    requires 'd' !in Lower(header) && OccursAt(Lower(header), "price", i)
    ensures Classify(header) == Some(TotalPrice)
  {
    var low := Lower(header);
    ContainsIff(low, "price");
    AbsentCharacter(low, "date", 'd');
    AbsentCharacter(low, "dozen", 'd');
  }

  /** The rename dictionary the loop builds: one entry per recognised
      header, mapping it to its canonical name; later headers are inserted
      after earlier ones. */
  function RenameMap(columns: seq<string>): map<string, string>
  {
    if columns == [] then map[]
    else
      var col := columns[|columns| - 1];
      var m := RenameMap(columns[..|columns| - 1]);
      match Classify(col)
      case Some(t) => m[col := TargetName(t)]
      case None => m
  }

  /** The rename dictionary has exactly the recognised headers as keys,
      each mapped to the canonical name of its class. */
  lemma {:induction false} RenameMapEntries(columns: seq<string>)
    ensures forall col :: col in RenameMap(columns) <==> col in columns && Classify(col).Some?
    ensures forall col :: col in RenameMap(columns) ==>
              Classify(col).Some? && RenameMap(columns)[col] == TargetName(Classify(col).value)
  {
    if columns != [] {
      var prefix := columns[..|columns| - 1];
      RenameMapEntries(prefix);
      assert columns == prefix + [columns[|columns| - 1]];
    }
  }

  /** The loop over the headers that fills the rename dictionary. */
  method BuildRenameMap(columns: seq<string>) returns (renameMap: map<string, string>)
    ensures renameMap == RenameMap(columns)
    ensures forall col :: col in renameMap <==> col in columns && Classify(col).Some?
    ensures forall col :: col in renameMap ==>
              Classify(col).Some? && renameMap[col] == TargetName(Classify(col).value)
  {
    renameMap := map[];
    for k := 0 to |columns|
      invariant renameMap == RenameMap(columns[..k])
    {
      var col := columns[k];
      var low := Lower(col);
      if Contains(low, "date") {
        renameMap := renameMap[col := "Date"];
      } else if Contains(low, "dozen") {
        renameMap := renameMap[col := "Dozens"];
      } else if Contains(low, "price") {
        renameMap := renameMap[col := "TotalPrice"];
      }
      assert columns[..k + 1][..k] == columns[..k];
    }
    assert columns[..|columns|] == columns;
    RenameMapEntries(columns);
  }

  /** Renames the columns through a dictionary: a header that is a key is
      replaced by its value, every other header is kept. */
  function Rename(columns: seq<string>, renameMap: map<string, string>): (r: seq<string>)
    ensures |r| == |columns|
  {
    seq(|columns|, i requires 0 <= i < |columns| =>
      if columns[i] in renameMap then renameMap[columns[i]] else columns[i])
  }

  /** The headers after the rename step. */
  function NormalizeHeaders(columns: seq<string>): seq<string>
  {
    Rename(columns, RenameMap(columns))
  }

  /** Each header is replaced by the canonical name of its class, or kept
      when it is not recognised; the number and order of columns do not
      change. */
  lemma NormalizedHeader(columns: seq<string>, i: int)
    requires 0 <= i < |columns|
    ensures |NormalizeHeaders(columns)| == |columns|
    ensures NormalizeHeaders(columns)[i] ==
              match Classify(columns[i])
              case Some(t) => TargetName(t)
              case None => columns[i]
  {
    RenameMapEntries(columns);
  }

  /** After the rename, a column carries a canonical name exactly when its
      original header was recognised as that column: an unrecognised header
      never happens to carry a canonical name. */
  lemma NormalizedIsTarget(columns: seq<string>, i: int, t: Target)
    requires 0 <= i < |columns|
    ensures NormalizeHeaders(columns)[i] == TargetName(t) <==> Classify(columns[i]) == Some(t)
  {
    NormalizedHeader(columns, i);
    TargetNameClassifies(t);
    match Classify(columns[i])
    case Some(u) =>
      if TargetName(u) == TargetName(t) {
        TargetNameClassifies(u);
      }
    case None =>
  }

  /** Renaming the renamed headers changes nothing more. */
  lemma NormalizeIdempotent(columns: seq<string>)
    ensures NormalizeHeaders(NormalizeHeaders(columns)) == NormalizeHeaders(columns)
  {
    var once := NormalizeHeaders(columns);
    forall i | 0 <= i < |once|
      ensures NormalizeHeaders(once)[i] == once[i]
    {
      NormalizedHeader(columns, i);
      NormalizedHeader(once, i);
      match Classify(columns[i])
      case Some(t) => TargetNameClassifies(t);
      case None =>
    }
  }
}
