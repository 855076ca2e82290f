/**
  The search box of `App.tsx`: a note is shown when the lower-cased query occurs
  in its lower-cased generated text or in its lower-cased transcript. Lower-casing
  is modelled for ASCII letters only.
 */
module NoteSearch {
  import opened Types

  function ToLowerChar(c: char): char
  {
    if 'A' <= c <= 'Z' then (c as int - 'A' as int + 'a' as int) as char else c
  }

  /** `String.prototype.toLowerCase`, restricted to ASCII letters. */
  function ToLower(s: string): (r: string)
    ensures |r| == |s|
    ensures forall i :: 0 <= i < |s| ==> r[i] == ToLowerChar(s[i])
  {
    seq(|s|, i requires 0 <= i < |s| => ToLowerChar(s[i]))
  }

  /** `query` occurs in `text` starting at position `i`. */
  predicate OccursAt(text: string, query: string, i: int)
  {
    0 <= i && i + |query| <= |text| && text[i..i + |query|] == query
  }

  /** `text.includes(query)`, scanning start positions left to right. */
  function Includes(text: string, query: string): (r: bool)
    ensures r <==> exists i :: OccursAt(text, query, i)
  {
    if |query| <= |text| && text[..|query|] == query then
      assert OccursAt(text, query, 0);
      true
    else if text == [] then
      assert forall i :: !OccursAt(text, query, i);
      false
    else
      var found := Includes(text[1..], query);
      assert found ==> exists i :: OccursAt(text, query, i) by {
        if found {
          var j :| OccursAt(text[1..], query, j);
          assert text[1..][j..j + |query|] == text[j + 1..j + 1 + |query|];
          assert OccursAt(text, query, j + 1);
        }
      }
      assert (exists i :: OccursAt(text, query, i)) ==> found by {
        if exists i :: OccursAt(text, query, i) {
          var i :| OccursAt(text, query, i);
          assert i != 0;
          assert text[1..][i - 1..i - 1 + |query|] == text[i..i + |query|];
          assert OccursAt(text[1..], query, i - 1);
        }
      }
      found
  }

  predicate NoteMatches(note: Note, query: string)
  {
    var q := ToLower(query);
    Includes(ToLower(note.processedContent), q) || Includes(ToLower(note.originalText), q)
  }

  /**
    `filteredNotes`: the matching notes, in their original order. Exactly the
    matching notes are kept, and no note is added.
   */
  function FilterNotes(notes: seq<Note>, query: string): (r: seq<Note>)
    ensures |r| <= |notes|
    ensures forall n :: n in r <==> n in notes && NoteMatches(n, query)
  {
    if notes == [] then []
    else (if NoteMatches(notes[0], query) then [notes[0]] else []) + FilterNotes(notes[1..], query)
  }

  /** Filtering distributes over concatenation, so the relative order of kept notes is the original one. */
  lemma {:induction false} FilterConcat(a: seq<Note>, b: seq<Note>, query: string)
    ensures FilterNotes(a + b, query) == FilterNotes(a, query) + FilterNotes(b, query)
  {
    if a != [] {
      assert (a + b)[0] == a[0];
      assert (a + b)[1..] == a[1..] + b;
      FilterConcat(a[1..], b, query);
    } else {
      assert a + b == b;
    }
  }

  /** The empty query keeps every note. */
  lemma {:induction false} FilterEmptyQuery(notes: seq<Note>)
    ensures FilterNotes(notes, "") == notes
  {
    if notes != [] {
      assert OccursAt(ToLower(notes[0].processedContent), ToLower(""), 0);
      FilterEmptyQuery(notes[1..]);
    }
  }
}
