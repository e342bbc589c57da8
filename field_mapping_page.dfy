/**
 The field-mapping step of the workflow: the list of proposed mappings, the
 count of required fields still unmapped that gates the step, the search box
 that narrows the displayed list, and the button that toggles one mapping.
 */
module FieldMappingPage {
  import opened Seqs
  import opened CmmoTypes

  // ---------------------------------------------------------------------------
  // Search: case-insensitive substring match on either field name
  // ---------------------------------------------------------------------------

  /** Lower-casing of one character, on the ASCII letters. */
  function LowerChar(c: char): char
  {
    if 'A' <= c <= 'Z' then (c as int + 32) as char else c
  }

  /** Lower-casing of a string, character by character. */
  function Lower(s: string): string
  {
    seq(|s|, i requires 0 <= i < |s| => LowerChar(s[i]))
  }

  /** `haystack` contains `needle` as a contiguous substring (the empty needle is everywhere). */
  predicate Includes(haystack: string, needle: string)
    decreases |haystack|
  {
    needle <= haystack || (|haystack| > 0 && Includes(haystack[1..], needle))
  }

  /** `Includes` holds exactly when `needle` starts at some offset of `haystack`. */
  lemma {:induction false} IncludesAtSomeOffset(haystack: string, needle: string)
    ensures Includes(haystack, needle) <==> exists i :: 0 <= i <= |haystack| && needle <= haystack[i..]
  {
    if needle <= haystack {
      assert haystack[0..] == haystack;
    } else if |haystack| > 0 {
      IncludesAtSomeOffset(haystack[1..], needle);
      if Includes(haystack[1..], needle) {
        var i :| 0 <= i <= |haystack[1..]| && needle <= haystack[1..][i..];
        assert haystack[1..][i..] == haystack[i + 1..];
      }
      if exists i :: 0 <= i <= |haystack| && needle <= haystack[i..] {
        var i :| 0 <= i <= |haystack| && needle <= haystack[i..];
        assert i != 0;
        assert haystack[1..][i - 1..] == haystack[i..];
      }
    } else {
      assert forall i :: 0 <= i <= |haystack| ==> haystack[i..] == haystack;
    }
  }

  /** A needle whose first character does not occur in the haystack is not contained in it. */
  lemma {:induction false} FirstCharAbsent(haystack: string, needle: string)
    requires |needle| > 0 && needle[0] !in haystack
    ensures !Includes(haystack, needle)
  {
    if |haystack| > 0 {
      assert haystack[0] in haystack;
      assert forall c :: c in haystack[1..] ==> c in haystack;
      FirstCharAbsent(haystack[1..], needle);
    }
  }

  /** A mapping is shown when the search term occurs in its source or its target field, ignoring case. */
  predicate Matches(m: FieldMapping, searchTerm: string)
  {
    Includes(Lower(m.sourceField), Lower(searchTerm)) || Includes(Lower(m.targetField), Lower(searchTerm))
  }

  function MatchesTerm(searchTerm: string): FieldMapping -> bool
  {
    m => Matches(m, searchTerm)
  }

  /** The mappings displayed for a search term. */
  function FilteredMappings(mappings: seq<FieldMapping>, searchTerm: string): seq<FieldMapping>
  {
    Filter(mappings, MatchesTerm(searchTerm))
  }

  /**
   The displayed list is an order-preserving sublist holding exactly the
   matching mappings, one card for every matching position.
   */
  lemma FilteredIsView(mappings: seq<FieldMapping>, searchTerm: string)
    ensures IsSubsequence(FilteredMappings(mappings, searchTerm), mappings)
    ensures forall m :: m in FilteredMappings(mappings, searchTerm) <==> m in mappings && Matches(m, searchTerm)
    ensures |FilteredMappings(mappings, searchTerm)| == |set i | 0 <= i < |mappings| && Matches(mappings[i], searchTerm)|
  {
    var p := MatchesTerm(searchTerm);
    FilterLengthIsIndexCount(mappings, p);
    assert Positions(mappings, p) == set i | 0 <= i < |mappings| && Matches(mappings[i], searchTerm);
    FilterIsSubsequence(mappings, MatchesTerm(searchTerm));
    forall m ensures m in FilteredMappings(mappings, searchTerm) <==> m in mappings && Matches(m, searchTerm) {
      FilterMembership(mappings, MatchesTerm(searchTerm), m);
    }
  }

  /** With an empty search box every mapping is displayed, in place. */
  lemma EmptySearchShowsAll(mappings: seq<FieldMapping>)
    ensures FilteredMappings(mappings, "") == mappings
  {
    assert Lower("") == "";
    forall i | 0 <= i < |mappings| ensures MatchesTerm("")(mappings[i]) {
      assert "" <= Lower(mappings[i].sourceField);
    }
    FilterKeepsAll(mappings, MatchesTerm(""));
  }

  // ---------------------------------------------------------------------------
  // Counts and the readiness gate
  // ---------------------------------------------------------------------------

  predicate IsUnmappedRequired(m: FieldMapping) { m.required && !m.mapped }
  predicate IsMapped(m: FieldMapping) { m.mapped }
  predicate IsRequired(m: FieldMapping) { m.required }
  predicate IsOptional(m: FieldMapping) { !m.required }

  /** Required fields that are not mapped yet. */
  function UnmappedRequired(mappings: seq<FieldMapping>): nat
  {
    |Filter(mappings, IsUnmappedRequired)|
  }

  /** The step may be left for harmonization. */
  predicate CanProgress(mappings: seq<FieldMapping>)
  {
    UnmappedRequired(mappings) == 0
  }

  function MappedCount(mappings: seq<FieldMapping>): nat { |Filter(mappings, IsMapped)| }
  function RequiredCount(mappings: seq<FieldMapping>): nat { |Filter(mappings, IsRequired)| }
  function OptionalCount(mappings: seq<FieldMapping>): nat { |Filter(mappings, IsOptional)| }

  /** The unmapped-required count is the number of positions holding a required, unmapped entry. */
  lemma UnmappedRequiredCountsPositions(mappings: seq<FieldMapping>)
    ensures UnmappedRequired(mappings) == |set i | 0 <= i < |mappings| && mappings[i].required && !mappings[i].mapped|
  {
    var p: FieldMapping -> bool := IsUnmappedRequired;
    FilterLengthIsIndexCount(mappings, p);
    var byFields := set i | 0 <= i < |mappings| && mappings[i].required && !mappings[i].mapped;
    assert Positions(mappings, p) == byFields;
  }

  /** The gate opens exactly when every required entry is mapped. */
  lemma CanProgressIff(mappings: seq<FieldMapping>)
    ensures CanProgress(mappings) <==> forall i :: 0 <= i < |mappings| && mappings[i].required ==> mappings[i].mapped
  {
    FilterEmptyIff(mappings, IsUnmappedRequired);
  }

  /**
   The summary panel's counts: required and optional split the list, the
   unmapped required fields are among the required ones, and every required
   field that is not unmapped is counted as mapped.
   */
  lemma SummaryCounts(mappings: seq<FieldMapping>)
    ensures RequiredCount(mappings) + OptionalCount(mappings) == |mappings|
    ensures UnmappedRequired(mappings) <= RequiredCount(mappings)
    ensures RequiredCount(mappings) - UnmappedRequired(mappings) <= MappedCount(mappings)
  {
    FilterSplit(mappings, IsRequired, IsOptional);
    FilterMonotone(mappings, IsUnmappedRequired, IsRequired);
    RequiredSplit(mappings);
    FilterMonotone(mappings, IsMappedRequired, IsMapped);
  }

  predicate IsMappedRequired(m: FieldMapping) { m.required && m.mapped }

  /** The required entries are the unmapped ones and the mapped ones. */
  lemma {:induction false} RequiredSplit(mappings: seq<FieldMapping>)
    ensures |Filter(mappings, IsUnmappedRequired)| + |Filter(mappings, IsMappedRequired)| == RequiredCount(mappings)
  {
    if mappings != [] {
      RequiredSplit(mappings[1..]);
    }
  }

  // ---------------------------------------------------------------------------
  // Toggling one mapping
  // ---------------------------------------------------------------------------

  /** The list with the `mapped` flag of entry `index` inverted. */
  function Toggle(mappings: seq<FieldMapping>, index: nat): seq<FieldMapping>
    requires index < |mappings|
  {
    mappings[index := mappings[index].(mapped := !mappings[index].mapped)]
  }

  /** The in-place update of one slot of the copied array. */
  method ToggleAt(a: array<FieldMapping>, index: nat)
    requires index < a.Length
    modifies a
    ensures a[..] == Toggle(old(a[..]), index)
  {
    a[index] := a[index].(mapped := !a[index].mapped);
  }

  /**
   The toggle handler: copy the list, flip entry `index` of the copy, and
   make the copy the new list. The handler is only bound to buttons of the
   displayed list, whose indices are below its length and hence below the
   length of the full list.
   */
  method HandleToggleMapping(mappings: seq<FieldMapping>, index: nat) returns (newMappings: seq<FieldMapping>)
    requires index < |mappings|
    ensures newMappings == Toggle(mappings, index)
    ensures |newMappings| == |mappings|
    ensures newMappings[index].mapped == !mappings[index].mapped
    ensures newMappings[index].(mapped := mappings[index].mapped) == mappings[index]
    ensures forall j :: 0 <= j < |mappings| && j != index ==> newMappings[j] == mappings[j]
  {
    var copy := new FieldMapping[|mappings|](i requires 0 <= i < |mappings| => mappings[i]);
    assert copy[..] == mappings;
    ToggleAt(copy, index);
    newMappings := copy[..];
  }

  /** Toggling the same entry twice restores the list. */
  lemma ToggleTwice(mappings: seq<FieldMapping>, index: nat)
    requires index < |mappings|
    ensures Toggle(Toggle(mappings, index), index) == mappings
  {
  }

  /** Toggling a required entry moves the unmapped-required count by one; an optional one leaves it. */
  lemma ToggleUnmappedRequired(mappings: seq<FieldMapping>, index: nat)
    requires index < |mappings|
    ensures mappings[index].required && !mappings[index].mapped ==>
              UnmappedRequired(Toggle(mappings, index)) == UnmappedRequired(mappings) - 1
    ensures mappings[index].required && mappings[index].mapped ==>
              UnmappedRequired(Toggle(mappings, index)) == UnmappedRequired(mappings) + 1
    ensures !mappings[index].required ==>
              UnmappedRequired(Toggle(mappings, index)) == UnmappedRequired(mappings)
  {
    FilterLengthUpdate(mappings, index, mappings[index].(mapped := !mappings[index].mapped), IsUnmappedRequired);
  }

  /** Toggling keeps the required and optional counts and moves the mapped count by one. */
  lemma ToggleSummaryCounts(mappings: seq<FieldMapping>, index: nat)
    requires index < |mappings|
    ensures RequiredCount(Toggle(mappings, index)) == RequiredCount(mappings)
    ensures OptionalCount(Toggle(mappings, index)) == OptionalCount(mappings)
    ensures MappedCount(Toggle(mappings, index))
         == if mappings[index].mapped then MappedCount(mappings) - 1 else MappedCount(mappings) + 1
  {
    var flipped := mappings[index].(mapped := !mappings[index].mapped);
    FilterLengthUpdate(mappings, index, flipped, IsRequired);
    FilterLengthUpdate(mappings, index, flipped, IsOptional);
    FilterLengthUpdate(mappings, index, flipped, IsMapped);
  }

  // ---------------------------------------------------------------------------
  // The toggle button of the displayed list
  // ---------------------------------------------------------------------------

  /**
   What a click on the button of card `viewIndex` of the displayed list does as
   the page is written: the card's position in the displayed list is handed to
   the handler, which uses it as a position in the full list.
   */
  function ClickAsWritten(mappings: seq<FieldMapping>, searchTerm: string, viewIndex: nat): seq<FieldMapping>
    requires viewIndex < |FilteredMappings(mappings, searchTerm)|
  {
    Toggle(mappings, viewIndex)
  }

  /** The click as intended: the entry toggled is the one shown on the card. */
  function Click(mappings: seq<FieldMapping>, searchTerm: string, viewIndex: nat): seq<FieldMapping>
    requires viewIndex < |FilteredMappings(mappings, searchTerm)|
  {
    Toggle(mappings, SourceIndex(mappings, MatchesTerm(searchTerm), viewIndex))
  }

  /**
   The intended click flips the card that was clicked and nothing else in the
   displayed list, and changes exactly one entry of the full list: the one that
   card shows.
   */
  lemma ClickFlipsShownEntry(mappings: seq<FieldMapping>, searchTerm: string, viewIndex: nat)
    requires viewIndex < |FilteredMappings(mappings, searchTerm)|
    ensures var shown := FilteredMappings(mappings, searchTerm)[viewIndex];
            FilteredMappings(Click(mappings, searchTerm, viewIndex), searchTerm)
              == FilteredMappings(mappings, searchTerm)[viewIndex := shown.(mapped := !shown.mapped)]
    ensures var j := SourceIndex(mappings, MatchesTerm(searchTerm), viewIndex);
            mappings[j] == FilteredMappings(mappings, searchTerm)[viewIndex] &&
            Click(mappings, searchTerm, viewIndex) == Toggle(mappings, j)
  {
    var p := MatchesTerm(searchTerm);
    var shown := FilteredMappings(mappings, searchTerm)[viewIndex];
    assert p(shown.(mapped := !shown.mapped)) == p(shown);
    FilterUpdateAt(mappings, p, viewIndex, shown.(mapped := !shown.mapped));
  }

  /** With an empty search box the page's click and the intended click agree. */
  lemma EmptySearchClicksAgree(mappings: seq<FieldMapping>, viewIndex: nat)
    requires viewIndex < |mappings|
    ensures viewIndex < |FilteredMappings(mappings, "")| &&
            FilteredMappings(mappings, "")[viewIndex] == mappings[viewIndex] &&
            ClickAsWritten(mappings, "", viewIndex) == Click(mappings, "", viewIndex)
  {
    EmptySearchShowsAll(mappings);
    forall i | 0 <= i < |mappings| ensures MatchesTerm("")(mappings[i]) {
      assert FilteredMappings(mappings, "")[i] == mappings[i];
    }
    SourceIndexKeepsAll(mappings, MatchesTerm(""), viewIndex);
  }

  /** A lower-case letter absent from a string in both cases is absent from its lower-casing. */
  lemma LowerKeepsLetterAbsent(s: string, c: char)
    requires 'a' <= c <= 'z'
    requires c !in s && (c as int - 32) as char !in s
    ensures c !in Lower(s)
  {
    forall i | 0 <= i < |s| ensures Lower(s)[i] != c {
      assert s[i] in s;
    }
  }

  /** The example search term "block" does not match the "Sample_Name" mapping. */
  lemma SampleNameHidden(m: FieldMapping)
    requires m.sourceField == "Sample_Name" && m.targetField == "Specimen_ID"
    ensures !Matches(m, "block")
  {
    assert Lower("block") == "block";
    assert 'b' !in "Sample_Name" && 'B' !in "Sample_Name";
    assert 'b' !in "Specimen_ID" && 'B' !in "Specimen_ID";
    LowerKeepsLetterAbsent("Sample_Name", 'b');
    LowerKeepsLetterAbsent("Specimen_ID", 'b');
    FirstCharAbsent(Lower("Sample_Name"), "block");
    FirstCharAbsent(Lower("Specimen_ID"), "block");
  }

  /** The example search term "block" matches the "Block_Number" mapping. */
  lemma BlockNumberShown(m: FieldMapping)
    requires m.sourceField == "Block_Number"
    ensures Matches(m, "block")
  {
    assert Lower("block") == "block";
    assert Lower("Block_Number")[..5] == "block";
  }

  /**
   A search that hides the first entry: clicking the only displayed card
   ("Block_Number") flips the hidden "Sample_Name" entry, and the clicked card
   stays as it was.
   */
  lemma ClickAsWrittenMissesShownEntry()
    ensures var sample := FieldMapping("Sample_Name", "Specimen_ID", 0.95, true, false);
            var block := FieldMapping("Block_Number", "Block_ID", 0.88, true, false);
            var mappings := [sample, block];
            FilteredMappings(mappings, "block") == [block] &&
            ClickAsWritten(mappings, "block", 0) == [sample.(mapped := true), block] &&
            FilteredMappings(ClickAsWritten(mappings, "block", 0), "block") == [block]
  {
    var sample := FieldMapping("Sample_Name", "Specimen_ID", 0.95, true, false);
    var block := FieldMapping("Block_Number", "Block_ID", 0.88, true, false);
    SampleNameHidden(sample);
    SampleNameHidden(sample.(mapped := true));
    BlockNumberShown(block);
    var p := MatchesTerm("block");
    assert !p(sample) && !p(sample.(mapped := true)) && p(block);
    FilterDropsFirst(sample, block, p);
    FilterDropsFirst(sample.(mapped := true), block, p);
  }
}
