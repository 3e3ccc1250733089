/**
  The admin allow-list of config.py: the `ADMIN_ID` environment string is
  split on commas, each field is stripped, and blank fields are dropped.
  The environment read itself is not modelled; the string is a parameter.
 */
module Config {
  import opened PyStr

  /** `[clean(f) for f in fields if clean(f)]`: the cleaned fields that are
      not empty, in their order. */
  function NonBlank(fields: seq<string>, clean: string -> string): (r: seq<string>)
    ensures |r| <= |fields|
    ensures forall e :: e in r ==> e != []
  {
    if fields == [] then []
    else
      var e := clean(fields[0]);
      var rest := NonBlank(fields[1..], clean);
      if e != "" then [e] + rest else rest
  }

  /** For each entry of `NonBlank(fields, clean)`, the index of the field it
      was cleaned from. */
  function Picks(fields: seq<string>, clean: string -> string): (idx: seq<nat>)
    ensures |idx| == |NonBlank(fields, clean)|
  {
    if fields == [] then []
    else
      var rest := Picks(fields[1..], clean);
      var shifted := seq(|rest|, k requires 0 <= k < |rest| => rest[k] + 1);
      if clean(fields[0]) != "" then [0] + shifted else shifted
  }

  /** Each pick names a field, and the entry is that field cleaned. */
  lemma {:induction false} PicksMatch(fields: seq<string>, clean: string -> string)
    ensures forall k :: 0 <= k < |Picks(fields, clean)| ==>
              Picks(fields, clean)[k] < |fields| && NonBlank(fields, clean)[k] == clean(fields[Picks(fields, clean)[k]])
  {
    if fields != [] {
      var tail := fields[1..];
      PicksMatch(tail, clean);
      var rest, r', r, idx := Picks(tail, clean), NonBlank(tail, clean), NonBlank(fields, clean), Picks(fields, clean);
      var d := if clean(fields[0]) != "" then 1 else 0;
      forall k | d <= k < |idx| ensures idx[k] < |fields| && r[k] == clean(fields[idx[k]]) {
        assert idx[k] == rest[k - d] + 1 && r[k] == r'[k - d];
        assert tail[rest[k - d]] == fields[idx[k]];
      }
    }
  }

  /** The picks are strictly increasing: entries keep the fields' order. */
  lemma {:induction false} PicksIncreasing(fields: seq<string>, clean: string -> string)
    ensures forall k, l :: 0 <= k < l < |Picks(fields, clean)| ==> Picks(fields, clean)[k] < Picks(fields, clean)[l]
  {
    if fields != [] {
      PicksIncreasing(fields[1..], clean);
    }
  }

  /** Every field that does not clean to the empty string is picked. */
  lemma {:induction false} PicksComplete(fields: seq<string>, clean: string -> string)
    ensures forall j :: 0 <= j < |fields| && clean(fields[j]) != "" ==> j in Picks(fields, clean)
  {
    if fields != [] {
      var tail := fields[1..];
      PicksComplete(tail, clean);
      var rest, idx := Picks(tail, clean), Picks(fields, clean);
      var d := if clean(fields[0]) != "" then 1 else 0;
      forall j | 1 <= j < |fields| && clean(fields[j]) != "" ensures j in idx {
        assert tail[j - 1] == fields[j];
        var k :| 0 <= k < |rest| && rest[k] == j - 1;
        assert idx[k + d] == j;
      }
    }
  }

  /** Every entry of `NonBlank` is one of the fields, cleaned. */
  lemma NonBlankOrigin(fields: seq<string>, clean: string -> string)
    ensures forall e :: e in NonBlank(fields, clean) ==> exists k :: 0 <= k < |fields| && e == clean(fields[k])
  {
    PicksMatch(fields, clean);
    var ids := NonBlank(fields, clean);
    forall e | e in ids ensures exists k :: 0 <= k < |fields| && e == clean(fields[k]) {
      var i :| 0 <= i < |ids| && ids[i] == e;
      assert e == clean(fields[Picks(fields, clean)[i]]);
    }
  }

  /** What cleaning must guarantee of one field for the admin list: a
      non-empty result has no outer whitespace, and no comma unless the
      field had one. */
  predicate CleanShape(f: string, e: string) {
    e != [] ==> !IsSpace(e[0]) && !IsSpace(e[|e| - 1]) && (',' !in f ==> ',' !in e)
  }

  /** `strip()` cleans every field into that shape. */
  lemma StripShape()
    ensures forall f :: CleanShape(f, Strip(f))
  {
    forall f ensures CleanShape(f, Strip(f)) {
      var e := Strip(f);
      assert forall c :: c in e ==> c in f;
    }
  }

  /** Cleaned non-blank fields without commas give entries that are
      non-empty, carry no outer whitespace and no comma. */
  lemma CleanedEntries(fields: seq<string>, clean: string -> string)
    requires forall f :: f in fields ==> ',' !in f
    requires forall f :: CleanShape(f, clean(f))
    ensures forall e :: e in NonBlank(fields, clean) ==> e != [] && !IsSpace(e[0]) && !IsSpace(e[|e| - 1]) && ',' !in e
  {
    NonBlankOrigin(fields, clean);
    forall e | e in NonBlank(fields, clean) ensures e != [] && !IsSpace(e[0]) && !IsSpace(e[|e| - 1]) && ',' !in e {
      var k :| 0 <= k < |fields| && e == clean(fields[k]);
      assert fields[k] in fields;
      assert CleanShape(fields[k], clean(fields[k]));
    }
  }

  /** Stripped non-blank fields without commas give entries that are
      non-empty, carry no outer whitespace and no comma. */
  lemma StrippedEntries(fields: seq<string>)
    requires forall f :: f in fields ==> ',' !in f
    ensures forall e :: e in NonBlank(fields, Strip) ==> e != [] && !IsSpace(e[0]) && !IsSpace(e[|e| - 1]) && ',' !in e
  {
    StripShape();
    CleanedEntries(fields, Strip);
  }

  /** `ADMIN_IDS` computed from `ADMIN_IDS_STR`: empty for an empty string;
      otherwise every entry is non-empty, carries no surrounding whitespace
      and no comma, and there are at most as many entries as comma-separated
      fields. */
  function AdminIds(adminIdStr: string): (ids: seq<string>)
    ensures adminIdStr == "" ==> ids == []
    ensures forall e :: e in ids ==> e != [] && !IsSpace(e[0]) && !IsSpace(e[|e| - 1])
    ensures forall e :: e in ids ==> ',' !in e
    ensures |ids| <= multiset(adminIdStr)[','] + 1
  {
    if adminIdStr == "" then []
    else
      var fields := Split(adminIdStr, ',');
      StrippedEntries(fields);
      NonBlank(fields, Strip)
  }

  /** Entries keep the left-to-right order of the comma-separated fields:
      `idx` gives, for each entry, the field it was stripped from; the
      indices strictly increase, and every field that is not blank after
      stripping is taken. */
  lemma AdminIdsOrder(adminIdStr: string) returns (idx: seq<nat>)
    requires adminIdStr != ""
    ensures |idx| == |AdminIds(adminIdStr)|
    ensures forall k :: 0 <= k < |idx| ==>
              idx[k] < |Split(adminIdStr, ',')| && AdminIds(adminIdStr)[k] == Strip(Split(adminIdStr, ',')[idx[k]])
    ensures forall k, l :: 0 <= k < l < |idx| ==> idx[k] < idx[l]
    ensures forall j :: 0 <= j < |Split(adminIdStr, ',')| && Strip(Split(adminIdStr, ',')[j]) != "" ==> j in idx
  {
    var fields := Split(adminIdStr, ',');
    idx := Picks(fields, Strip);
    PicksMatch(fields, Strip);
    PicksIncreasing(fields, Strip);
    PicksComplete(fields, Strip);
  }
}
