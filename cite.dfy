/** The citation widget of a volume page: the author list built from the
    volume's access records, and the permalink. */
module Cite {
  import opened Records

  /** `next.individual || 0`: a missing (or zero) level counts as 0. */
  function Level(a: Access): int
  {
    if a.individual.Some? then a.individual.value else 0
  }

  /** The length of the run of records from position `i` on whose level is at least ADMIN. */
  function Run(access: seq<Access>, i: int): (r: nat)
    requires 0 <= i
    ensures i >= |access| ==> r == 0
    ensures i < |access| ==> i + r <= |access|
    ensures forall j :: i <= j < i + r ==> Level(access[j]) >= ADMIN
    ensures i + r < |access| ==> Level(access[i + r]) < ADMIN
    decreases |access| - i
  {
    if i >= |access| || Level(access[i]) < ADMIN then 0 else 1 + Run(access, i + 1)
  }

  /** The records cited as authors: the first one whatever its level, then the
      records right after it as long as their level reaches ADMIN. */
  function Cited(access: seq<Access>): (r: seq<Access>)
    ensures access == [] <==> r == []
    ensures r != [] ==> r[0] == access[0]
    ensures |r| <= |access| && r == access[..|r|]
    ensures forall j :: 1 <= j < |r| ==> Level(access[j]) >= ADMIN
    ensures |r| < |access| ==> Level(access[|r|]) < ADMIN
  {
    if access == [] then [] else access[..1 + Run(access, 1)]
  }

  /** The record after a cited one is cited exactly when it exists and its level reaches ADMIN. */
  lemma CitedNext(access: seq<Access>, ai: nat)
    requires 1 <= ai <= |Cited(access)|
    ensures ai < |Cited(access)| <==> ai < |access| && Level(access[ai]) >= ADMIN
  {
  }

  /** `s.split(' ')`: the pieces between single spaces, empty pieces included. */
  function Split(s: string): (r: seq<string>)
    ensures |r| >= 1
  {
    if s == [] then [[]]
    else
      var rest := Split(s[1..]);
      if s[0] == ' ' then [[]] + rest
      else [[s[0]] + rest[0]] + rest[1..]
  }

  /** No piece of a split holds a space. */
  lemma {:induction false} SplitPieces(s: string)
    ensures forall i :: 0 <= i < |Split(s)| ==> ' ' !in Split(s)[i]
  {
    if s != [] {
      SplitPieces(s[1..]);
    }
  }

  /** `parts.join(' ')`. */
  function Join(parts: seq<string>): string
    requires |parts| >= 1
  {
    if |parts| == 1 then parts[0] else parts[0] + " " + Join(parts[1..])
  }

  /** Joining the pieces of a split gives back the string. */
  lemma {:induction false} JoinSplit(s: string)
    ensures Join(Split(s)) == s
  {
    if s != [] {
      JoinSplit(s[1..]);
      var rest := Split(s[1..]);
      if s[0] == ' ' {
        assert ([[]] + rest)[1..] == rest;
        assert s == [' '] + s[1..];
      } else {
        var r := [[s[0]] + rest[0]] + rest[1..];
        if |rest| == 1 {
          assert s == [s[0]] + s[1..];
        } else {
          assert r[1..] == rest[1..];
          assert Join(rest) == rest[0] + " " + Join(rest[1..]);
          assert s == [s[0]] + s[1..];
        }
      }
    }
  }

  /** Splitting a join of space-free pieces gives back the pieces. */
  lemma {:induction false} SplitJoin(parts: seq<string>)
    requires |parts| >= 1
    requires forall i :: 0 <= i < |parts| ==> ' ' !in parts[i]
    ensures Split(Join(parts)) == parts
  {
    if |parts| == 1 {
      SplitWord(parts[0], []);
      assert parts[0] + [] == parts[0];
      assert parts == [parts[0]];
    } else {
      var rest := Join(parts[1..]);
      SplitJoin(parts[1..]);
      SplitWord(parts[0], " " + rest);
      assert (" " + rest)[1..] == rest;
      assert Join(parts) == parts[0] + (" " + rest);
      assert parts == [parts[0]] + parts[1..];
    }
  }

  /** A space-free word in front of a split string extends its first piece. */
  lemma {:induction false} SplitWord(w: string, s: string)
    requires ' ' !in w
    requires s == [] || s[0] == ' '
    ensures s == [] ==> Split(w + s) == [w]
    ensures s != [] ==> Split(w + s) == [w] + Split(s[1..])
  {
    if w == [] {
      assert w + s == s;
      if s != [] {
        assert Split(s) == [[]] + Split(s[1..]);
      }
    } else {
      SplitWord(w[1..], s);
      assert (w + s)[1..] == w[1..] + s;
      assert [w[0]] + w[1..] == w;
    }
  }

  /** `parts.forEach(initial)`: the first letter and a dot for every non-empty piece. */
  function Initials(parts: seq<string>): string
  {
    if parts == [] then ""
    else
      var p := parts[|parts| - 1];
      Initials(parts[..|parts| - 1]) + (if p != "" then [p[0], '.'] else "")
  }

  /** One author as written: the last word of the name, then, when the name
      has earlier words, a comma and their initials. */
  function Render(name: string): string
  {
    var parts := Split(name);
    var last := parts[|parts| - 1];
    if |parts| > 1 then last + ", " + Initials(parts[..|parts| - 1]) else last
  }

  /** A one-word name is written as is; a name of several words is written
      surname first, followed by the initials of the given names. */
  lemma RenderWords(first: seq<string>, last: string)
    requires forall i :: 0 <= i < |first| ==> ' ' !in first[i]
    requires ' ' !in last
    ensures first == [] ==> Render(last) == last
    ensures first != [] ==> Render(Join(first + [last])) == last + ", " + Initials(first)
  {
    var parts := first + [last];
    SplitJoin(parts);
    assert parts[..|parts| - 1] == first;
    if first == [] {
      assert Join([last]) == last;
    }
  }

  /** The separator the loop writes before an author: none before the first. */
  function Separated(authors: string, isLast: bool): string
  {
    if authors != "" then authors + ", " + (if isLast then " & " else "") else authors
  }

  /** One pass of the `while (access)` loop: the separator, then the author as written. */
  function Step(authors: string, author: string, isLast: bool): string
  {
    Separated(authors, isLast) + author
  }

  /** The author string after the remaining written authors were appended to `authors`. */
  function AuthorsText(authors: string, rendered: seq<string>): string
    decreases |rendered|
  {
    if rendered == [] then authors
    else AuthorsText(Step(authors, rendered[0], |rendered| == 1), rendered[1..])
  }

  /** Appending the written author at position `i` moves the remaining list on by one. */
  lemma AuthorsTextStep(authors: string, rendered: seq<string>, i: nat)
    requires i < |rendered|
    ensures AuthorsText(authors, rendered[i..])
         == AuthorsText(Step(authors, rendered[i], i == |rendered| - 1), rendered[i + 1..])
  {
    assert rendered[i..][1..] == rendered[i + 1..];
  }

  function Names(access: seq<Access>): (r: seq<string>)
    ensures |r| == |access|
  {
    seq(|access|, i requires 0 <= i < |access| => access[i].party.name)
  }

  function Rendered(names: seq<string>): (r: seq<string>)
    ensures |r| == |names|
  {
    seq(|names|, i requires 0 <= i < |names| => Render(names[i]))
  }

  /** The author string of a volume. */
  function Authors(access: seq<Access>): string
  {
    AuthorsText("", Rendered(Names(Cited(access))))
  }

  /** The separators of a written list: `", "` before every later author and
      `",  & "` before the last one. */
  function Tail(rendered: seq<string>): string
  {
    if rendered == [] then ""
    else (if |rendered| == 1 then ",  & " else ", ") + rendered[0] + Tail(rendered[1..])
  }

  /** Once something is written, every further author gets its separator. */
  lemma {:induction false} AuthorsTextTail(authors: string, rendered: seq<string>)
    requires authors != ""
    ensures AuthorsText(authors, rendered) == authors + Tail(rendered)
    decreases |rendered|
  {
    if rendered != [] {
      var sep := if |rendered| == 1 then ",  & " else ", ";
      var next := authors + sep + rendered[0];
      assert Separated(authors, |rendered| == 1) == authors + sep;
      assert Step(authors, rendered[0], |rendered| == 1) == next;
      AuthorsTextTail(next, rendered[1..]);
      assert Tail(rendered) == sep + rendered[0] + Tail(rendered[1..]);
      assert next + Tail(rendered[1..]) == authors + Tail(rendered);
    }
  }

  /** A list whose first author is written as a non-empty string reads
      `a1, a2, ...,  & an`. */
  lemma AuthorsTextStart(rendered: seq<string>)
    requires rendered != [] && rendered[0] != ""
    ensures AuthorsText("", rendered) == rendered[0] + Tail(rendered[1..])
  {
    assert Step("", rendered[0], |rendered| == 1) == rendered[0];
    AuthorsTextTail(rendered[0], rendered[1..]);
  }

  /** An author written as the empty string leaves the text empty, so the next
      author gets no separator in front. */
  lemma AuthorsTextEmptyFirst(rendered: seq<string>)
    requires rendered != [] && rendered[0] == ""
    ensures AuthorsText("", rendered) == AuthorsText("", rendered[1..])
  {
    assert Step("", rendered[0], |rendered| == 1) == "";
  }

  /** No records, no authors; otherwise, when the first author is written as a
      non-empty string, the list reads `a1, a2, ...,  & an`, and when it is
      written as the empty string the list is that of the later authors alone. */
  lemma AuthorsListing(access: seq<Access>)
    ensures access == [] ==> Authors(access) == ""
    ensures access != [] && Render(access[0].party.name) != "" ==>
      Authors(access) == Render(access[0].party.name) + Tail(Rendered(Names(Cited(access)))[1..])
    ensures access != [] && Render(access[0].party.name) == "" ==>
      Authors(access) == AuthorsText("", Rendered(Names(Cited(access)))[1..])
  {
    if access != [] {
      var rendered := Rendered(Names(Cited(access)));
      assert rendered[0] == Render(access[0].party.name);
      if rendered[0] != "" {
        AuthorsTextStart(rendered);
      } else {
        AuthorsTextEmptyFirst(rendered);
      }
    }
  }

  /** The initials of one more piece extend the initials so far. */
  lemma InitialsNext(parts: seq<string>, i: nat)
    requires i < |parts|
    ensures Initials(parts[..i + 1]) == Initials(parts[..i]) + (if parts[i] != "" then [parts[i][0], '.'] else "")
  {
    assert parts[..i + 1][..i] == parts[..i];
  }

  /** `parts.forEach(initial)`: the first letter of every non-empty piece and a
      dot, appended to `authors`. */
  method WriteInitials(authors: string, parts: seq<string>) returns (r: string)
    ensures r == authors + Initials(parts)
  {
    r := authors;
    for i := 0 to |parts|
      invariant r == authors + Initials(parts[..i])
    {
      InitialsNext(parts, i);
      if parts[i] != "" {
        r := r + [parts[i][0], '.'];
      }
    }
    assert parts[..|parts|] == parts;
  }

  /** Writes one author onto `authors`: `parts.pop()`, then, when pieces
      remain, a comma and their initials. */
  method WriteAuthor(authors: string, name: string) returns (r: string)
    ensures r == authors + Render(name)
  {
    var parts := Split(name);
    var last := parts[|parts| - 1];
    var first := parts[..|parts| - 1];
    r := authors + last;
    if |first| > 0 {
      r := WriteInitials(r + ", ", first);
      assert r == authors + (last + ", " + Initials(first));
    }
  }

  /** The body of the author loop: the separator, then the author. */
  method WriteNext(authors: string, name: string, isLast: bool) returns (r: string)
    ensures r == Step(authors, Render(name), isLast)
  {
    r := authors;
    if r != "" {
      r := r + ", ";
      if isLast {
        r := r + " & ";
      }
    }
    r := WriteAuthor(r, name);
  }

  /** `link`: the author loop over the access records and the permalink choice.
      `absUrl` stands for the page's absolute URL. */
  method Link(volume: Volume, absUrl: string) returns (authors: string, permalink: string)
    ensures authors == Authors(volume.access)
    ensures volume.doi.Some? && volume.doi.value != "" ==> permalink == "doi:" + volume.doi.value
    ensures !(volume.doi.Some? && volume.doi.value != "") ==> permalink == absUrl
  {
    var recs := volume.access;
    ghost var cited := Cited(recs);
    ghost var rendered := Rendered(Names(cited));
    authors := "";
    var ai := 0;
    var access: Option<Access> := if |recs| > 0 then Some(recs[0]) else None;
    while access.Some?
      invariant 0 <= ai <= |cited|
      invariant access.Some? <==> ai < |cited|
      invariant access.Some? ==> access.value == recs[ai]
      invariant AuthorsText(authors, rendered[ai..]) == AuthorsText("", rendered)
      decreases |recs| - ai
    {
      ai := ai + 1;
      var next := if ai < |recs| then Some(recs[ai]) else None;
      if next.Some? && Level(next.value) < ADMIN {
        next := None;
      }
      CitedNext(recs, ai);
      assert rendered[ai - 1] == Render(access.value.party.name);
      AuthorsTextStep(authors, rendered, ai - 1);
      authors := WriteNext(authors, access.value.party.name, next.None?);
      access := next;
    }
    assert rendered[ai..] == [];
    if volume.doi.Some? && volume.doi.value != "" {
      permalink := "doi:" + volume.doi.value;
    } else {
      permalink := absUrl;
    }
  }
}
