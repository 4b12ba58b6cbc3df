/** `get_df`: the medicine rows a view shows, optionally restricted to one
    clinic, and the filter the main page passes to it. */
module ClinicFilter {
  import opened Records

  const ALL_CLINICS: string := "All"

  /** The rows of `meds` whose clinic is `c`, in their original order. */
  function FilterClinic(meds: seq<Medicine>, c: string): (r: seq<Medicine>)
    ensures |r| <= |meds|
    ensures forall i :: 0 <= i < |r| ==> r[i].clinic == c
    decreases |meds|
  {
    if meds == [] then []
    else
      (if meds[0].clinic == c then [meds[0]] else []) + FilterClinic(meds[1..], c)
  }

  /** No matching row is dropped or duplicated, and no other row is kept. */
  lemma {:induction false} FilterClinicCounts(meds: seq<Medicine>, c: string, m: Medicine)
    ensures multiset(FilterClinic(meds, c))[m] == if m.clinic == c then multiset(meds)[m] else 0
    decreases |meds|
  {
    if meds != [] {
      assert meds == [meds[0]] + meds[1..];
      FilterClinicCounts(meds[1..], c, m);
    }
  }

  /** Every stored row of the clinic is returned, as often as it is stored,
      and a row is returned exactly when it is stored and of the clinic. */
  lemma FilterClinicKeepsAll(meds: seq<Medicine>, c: string)
    ensures forall m: Medicine :: m.clinic == c ==> multiset(FilterClinic(meds, c))[m] == multiset(meds)[m]
    ensures forall m :: m in FilterClinic(meds, c) <==> m in meds && m.clinic == c
  {
    forall m: Medicine
      ensures m.clinic == c ==> multiset(FilterClinic(meds, c))[m] == multiset(meds)[m]
      ensures m in FilterClinic(meds, c) <==> m in meds && m.clinic == c
    {
      FilterClinicCounts(meds, c, m);
      FilterClinicMembers(meds, c, m);
    }
  }

  /** A row is returned exactly when it is stored and belongs to `c`. */
  lemma {:induction false} FilterClinicMembers(meds: seq<Medicine>, c: string, m: Medicine)
    ensures m in FilterClinic(meds, c) <==> m in meds && m.clinic == c
  {
    FilterClinicCounts(meds, c, m);
  }

  /** Filtering distributes over concatenation, so the rows kept stay in
      insertion order. */
  lemma {:induction false} FilterClinicConcat(a: seq<Medicine>, b: seq<Medicine>, c: string)
    ensures FilterClinic(a + b, c) == FilterClinic(a, c) + FilterClinic(b, c)
    decreases |a|
  {
    if a == [] {
      assert a + b == b;
    } else {
      var head := if a[0].clinic == c then [a[0]] else [];
      assert (a + b)[0] == a[0];
      assert (a + b)[1..] == a[1..] + b;
      calc {
        FilterClinic(a + b, c);
        head + FilterClinic(a[1..] + b, c);
        { FilterClinicConcat(a[1..], b, c); }
        head + (FilterClinic(a[1..], c) + FilterClinic(b, c));
        (head + FilterClinic(a[1..], c)) + FilterClinic(b, c);
      }
    }
  }

  /** A filter that selects every row keeps `meds` unchanged. */
  lemma {:induction false} FilterClinicAllMatch(meds: seq<Medicine>, c: string)
    requires forall i :: 0 <= i < |meds| ==> meds[i].clinic == c
    ensures FilterClinic(meds, c) == meds
    decreases |meds|
  {
    if meds != [] {
      FilterClinicAllMatch(meds[1..], c);
    }
  }

  /** Filtering twice by the same clinic is filtering once. */
  lemma FilterClinicIdempotent(meds: seq<Medicine>, c: string)
    ensures FilterClinic(FilterClinic(meds, c), c) == FilterClinic(meds, c)
  {
    FilterClinicAllMatch(FilterClinic(meds, c), c);
  }

  /** Whether a filter value restricts the rows: Python treats `None` and the
      empty string as false, and "All" means every clinic. */
  predicate Restricts(filter: Option<string>) {
    filter.Some? && filter.value != "" && filter.value != ALL_CLINICS
  }

  /** The rows the stock query returns for `filter`. */
  function GetDf(meds: seq<Medicine>, filter: Option<string>): (r: seq<Medicine>)
    ensures !Restricts(filter) ==> r == meds
    ensures Restricts(filter) ==> r == FilterClinic(meds, filter.value)
    ensures Restricts(filter) ==> forall i :: 0 <= i < |r| ==> r[i].clinic == filter.value
    ensures Restricts(filter) ==> forall m: Medicine :: m.clinic == filter.value ==> multiset(r)[m] == multiset(meds)[m]
    ensures Restricts(filter) ==> forall m :: m in r <==> m in meds && m.clinic == filter.value
  {
    if Restricts(filter) then
      FilterClinicKeepsAll(meds, filter.value);
      FilterClinic(meds, filter.value)
    else meds
  }

  /** The filter the main page passes: "All" when an admin views every
      clinic, otherwise the selected clinic. */
  function ViewFilter(isAdmin: bool, selectedClinic: string): (f: Option<string>)
    ensures Restricts(f) <==> selectedClinic != "" && selectedClinic != ALL_CLINICS
    ensures Restricts(f) ==> f.value == selectedClinic
  {
    if isAdmin && selectedClinic == ALL_CLINICS then Some(ALL_CLINICS) else Some(selectedClinic)
  }
}
