/** The conversion of one parsed Relaton record into a bibxml `<reference>`
    fragment: the field extractors get_content, get_abstract, get_doi,
    get_date and get_authors, the template of generate_bibxml and the name of
    the file the fragment is written to. A Python exception that nothing
    catches is the outcome `Raise(e)`; it ends the conversion of the record. */
module Rfc {
  import opened Values
  import opened Dates

  // ---------------------------------------------------------------------
  // get_content, get_abstract

  /** `data[field][0]["content"]` */
  function ContentPath(field: string): seq<Subscript>
  {
    [Key(field), First, Key("content")]
  }

  /** get_content: the value at `data[field][0]["content"]`; a `KeyError`
      anywhere on that path gives the empty string, and every other
      exception (an empty list at `[0]`, a value that cannot be subscripted)
      escapes. */
  function GetContent(data: Value, field: string): (r: Outcome<Value>)
    ensures Resolve(data, ContentPath(field)).Ok? ==> r == Resolve(data, ContentPath(field))
    ensures r.Raise? <==> Resolve(data, ContentPath(field)).Raise? && Resolve(data, ContentPath(field)).exc != KeyError
    ensures r.Raise? ==> r == Resolve(data, ContentPath(field))
    ensures r == Ok(Str("")) <==> Resolve(data, ContentPath(field)) in {Raise(KeyError), Ok(Str(""))}
    ensures data.Dict? && Find(data.entries, field) == Ok(List([])) ==> r == Raise(IndexError)
    ensures data.Dict? && field !in Keys(data.entries) ==> r == Ok(Str(""))
  {
    match Resolve(data, ContentPath(field))
    case Ok(content) => Ok(content)
    case Raise(KeyError) => Ok(Str(""))
    case Raise(e) => Raise(e)
  }

  /** get_abstract: the abstract wrapped in `<abstract><t>…</t></abstract>`
      when its content is truthy, and the empty string, not an empty
      element, otherwise. */
  function GetAbstract(data: Value): (r: Outcome<string>)
    ensures GetContent(data, "abstract").Raise? ==> r == Raise(GetContent(data, "abstract").exc)
    ensures GetContent(data, "abstract").Ok? ==>
              r.Ok? && (r.value == "" <==> !Truthy(GetContent(data, "abstract").value))
    ensures r.Ok? && r.value != "" ==>
              r.value == "<abstract><t>" + Display(GetContent(data, "abstract").value) + "</t></abstract>"
    ensures data.Dict? && "abstract" !in Keys(data.entries) ==> r == Ok("")
  {
    var content :- GetContent(data, "abstract");
    if Truthy(content) then Ok("<abstract><t>" + Display(content) + "</t></abstract>") else Ok("")
  }

  // ---------------------------------------------------------------------
  // get_doi

  /** The value get_doi returns for the entries its loop visits: the `id` of
      the first entry whose `type` equals the string "DOI", and `None` when no
      entry matches. Looking up `type` or `id` may raise. */
  function FirstDoi(docids: seq<Value>): Outcome<Value>
  {
    if docids == [] then Ok(Null)
    else
      var kind :- Sub(docids[0], Key("type"));
      if kind == Str("DOI") then Sub(docids[0], Key("id")) else FirstDoi(docids[1..])
  }

  /** What get_doi returns or raises for a whole record; a record without
      `docid` raises `KeyError`. */
  function Doi(data: Value): (r: Outcome<Value>)
    ensures Sub(data, Key("docid")).Raise? ==> r == Raise(Sub(data, Key("docid")).exc)
    ensures data.Dict? && "docid" !in Keys(data.entries) ==> r == Raise(KeyError)
    ensures Sub(data, Key("docid")) == Ok(List([])) ==> r == Ok(Null)
  {
    var docids :- Sub(data, Key("docid"));
    var entries :- Iterate(docids);
    FirstDoi(entries)
  }

  /** get_doi: scans `data["docid"]` in order and returns at the first entry
      whose `type` is "DOI". */
  method GetDoi(data: Value) returns (r: Outcome<Value>)
    ensures r == Doi(data)
  {
    var docids := Sub(data, Key("docid"));
    if docids.Raise? {
      return Raise(docids.exc);
    }
    var entries := Iterate(docids.value);
    if entries.Raise? {
      return Raise(entries.exc);
    }
    var es := entries.value;
    var i := 0;
    while i < |es|
      invariant 0 <= i <= |es|
      invariant FirstDoi(es[i..]) == FirstDoi(es)
    {
      assert es[i..][0] == es[i] && es[i..][1..] == es[i + 1..];
      var kind := Sub(es[i], Key("type"));
      if kind.Raise? {
        return Raise(kind.exc);
      }
      if kind.value == Str("DOI") {
        return Sub(es[i], Key("id"));
      }
      i := i + 1;
    }
    assert es[i..] == [];
    return Ok(Null);
  }

  /** No entry before `i` has type "DOI" and entry `i` has: the DOI is entry
      `i`'s `id`, whatever the entries after it hold. */
  lemma {:induction false} FirstDoiAt(docids: seq<Value>, i: nat)
    requires i < |docids|
    requires forall j | 0 <= j < i :: Sub(docids[j], Key("type")).Ok? && Sub(docids[j], Key("type")).value != Str("DOI")
    requires Sub(docids[i], Key("type")) == Ok(Str("DOI"))
    ensures FirstDoi(docids) == Sub(docids[i], Key("id"))
  {
    if i > 0 {
      FirstDoiAt(docids[1..], i - 1);
    }
  }

  /** When every entry has a `type` and none is "DOI", get_doi returns `None`. */
  lemma {:induction false} FirstDoiNone(docids: seq<Value>)
    requires forall j | 0 <= j < |docids| :: Sub(docids[j], Key("type")).Ok? && Sub(docids[j], Key("type")).value != Str("DOI")
    ensures FirstDoi(docids) == Ok(Null)
  {
    if docids != [] {
      FirstDoiNone(docids[1..]);
    }
  }

  /** An entry without a `type` before any DOI entry ends the record with the
      exception its lookup raised. */
  lemma {:induction false} FirstDoiRaises(docids: seq<Value>, i: nat)
    requires i < |docids|
    requires forall j | 0 <= j < i :: Sub(docids[j], Key("type")).Ok? && Sub(docids[j], Key("type")).value != Str("DOI")
    requires Sub(docids[i], Key("type")).Raise?
    ensures FirstDoi(docids) == Raise(Sub(docids[i], Key("type")).exc)
  {
    if i > 0 {
      FirstDoiRaises(docids[1..], i - 1);
    }
  }

  // ---------------------------------------------------------------------
  // get_date

  /** `data["date"][0]["value"]` */
  const DatePath: seq<Subscript> := [Key("date"), First, Key("value")]

  /** get_date: parses `data["date"][0]["value"]` as `%Y-%m` and renders it
      as a `<date>` element; every failure escapes, none is defaulted. */
  function GetDate(data: Value): (r: Outcome<string>)
    ensures Resolve(data, DatePath).Raise? ==> r == Raise(Resolve(data, DatePath).exc)
    ensures Resolve(data, DatePath).Ok? && !Resolve(data, DatePath).value.Str? ==> r == Raise(TypeError)
    ensures Resolve(data, DatePath).Ok? && Resolve(data, DatePath).value.Str? ==>
              match ParseYearMonth(Resolve(data, DatePath).value.s)
              case Ok(ym) => r == Ok(DateElement(ym))
              case Raise(e) => r == Raise(ValueError)
  {
    var published := Resolve(data, DatePath);
    var text :- published;
    if !text.Str? then Raise(TypeError)
    else
      var ym :- ParseYearMonth(text.s);
      Ok(DateElement(ym))
  }

  /** A date written `YYYY-MM`, for any year 1 to 9999 and month 1 to 12,
      renders with that month's English name and the same four year digits. */
  lemma DateOfCanonicalText(data: Value, ym: YearMonth)
    requires ValidYearMonth(ym)
    requires Resolve(data, DatePath) == Ok(Str(ym.year + "-" + MonthText(ym.month)))
    ensures GetDate(data) == Ok("<date month=\"" + MonthNames[ym.month - 1] + "\" year=\"" + ym.year + "\"/>")
  {
    ParseCanonical(ym);
  }

  /** A two-digit month outside 1..12 is a failure, not a default. */
  lemma DateMonthOutOfRange(data: Value, year: string, month: nat)
    requires ValidYear(year) && (month == 0 || 13 <= month <= 99)
    requires Resolve(data, DatePath) == Ok(Str(year + "-" + MonthText(month)))
    ensures GetDate(data) == Raise(ValueError)
  {
    MonthOutOfRange(year, month);
  }

  // ---------------------------------------------------------------------
  // get_authors

  /** `contributor["person"]["name"]["completename"]["content"]` */
  const FullnamePath: seq<Subscript> := [Key("person"), Key("name"), Key("completename"), Key("content")]
  /** `contributor["person"]["name"]["given"]["formatted_initials"]["content"]` */
  const InitialsPath: seq<Subscript> := [Key("person"), Key("name"), Key("given"), Key("formatted_initials"), Key("content")]
  /** `contributor["person"]["name"]["surname"]["content"]` */
  const SurnamePath: seq<Subscript> := [Key("person"), Key("name"), Key("surname"), Key("content")]
  /** `contributor["role"][0]["type"]` */
  const RolePath: seq<Subscript> := [Key("role"), First, Key("type")]

  /** A contributor get_authors writes a tag for: a dict with a `person` key. */
  predicate IsPerson(contributor: Value)
  {
    contributor.Dict? && "person" in Keys(contributor.entries)
  }

  /** initials_str: `initials="…"` when the initials path resolves, the empty
      string when it raises `KeyError`; other exceptions escape. */
  function InitialsText(contributor: Value): (r: Outcome<string>)
    ensures Resolve(contributor, InitialsPath).Ok? ==>
              r == Ok("initials=\"" + Display(Resolve(contributor, InitialsPath).value) + "\"")
    ensures r == Ok("") <==> Resolve(contributor, InitialsPath) == Raise(KeyError)
    ensures r.Raise? <==> Resolve(contributor, InitialsPath).Raise? && Resolve(contributor, InitialsPath).exc != KeyError
    ensures r.Raise? ==> r == Raise(Resolve(contributor, InitialsPath).exc)
  {
    match Resolve(contributor, InitialsPath)
    case Ok(initials) => Ok("initials=\"" + Display(initials) + "\"")
    case Raise(KeyError) => Ok("")
    case Raise(e) => Raise(e)
  }

  /** How every author tag begins. */
  const AuthorOpen := "<author fullname=\""

  /** The tag written when `role[0].type` resolves, quotes as in the source:
      the surname's value is not closed before ` role=`. */
  function TagWithRole(fullname: string, initials: string, surname: string, role: string): (tag: string)
    ensures AuthorOpen <= tag
    ensures EndsWith(tag, " surname=\"" + surname + " role=\"" + role + "\"/>")
  {
    AuthorOpen + fullname + "\" " + initials + " surname=\"" + surname + " role=\"" + role + "\"/>"
  }

  /** The tag written when `role[0].type` raises `KeyError`, quotes as in the
      source: a stray quote after the initials and none after the surname. */
  function TagWithoutRole(fullname: string, initials: string, surname: string): (tag: string)
    ensures AuthorOpen <= tag
    ensures EndsWith(tag, "\" surname=\"" + surname + "/>")
  {
    AuthorOpen + fullname + "\" " + initials + "\" surname=\"" + surname + "/>"
  }

  /** What one pass of get_authors' loop adds to `authors`: nothing for a
      contributor without `person`, one tag for a person. A contributor that
      is not a dict has no `.keys()`. */
  function AuthorTag(contributor: Value): (r: Outcome<string>)
    ensures !contributor.Dict? ==> r == Raise(AttributeError)
    ensures contributor.Dict? && !IsPerson(contributor) ==> r == Ok("")
    ensures IsPerson(contributor) && r.Ok? ==> AuthorOpen <= r.value
    ensures IsPerson(contributor) && Resolve(contributor, FullnamePath).Raise? ==>
              r == Raise(Resolve(contributor, FullnamePath).exc)
    ensures IsPerson(contributor) && Resolve(contributor, FullnamePath).Ok? && InitialsText(contributor).Raise? ==>
              r == Raise(InitialsText(contributor).exc)
    ensures (IsPerson(contributor) && Resolve(contributor, FullnamePath).Ok? && InitialsText(contributor).Ok?
             && Resolve(contributor, SurnamePath).Raise?) ==> r == Raise(Resolve(contributor, SurnamePath).exc)
    ensures (IsPerson(contributor) && Resolve(contributor, FullnamePath).Ok? && InitialsText(contributor).Ok?
             && Resolve(contributor, SurnamePath).Ok? && Resolve(contributor, RolePath).Raise?
             && Resolve(contributor, RolePath).exc != KeyError) ==> r == Raise(Resolve(contributor, RolePath).exc)
  {
    if !contributor.Dict? then Raise(AttributeError)
    else if !IsPerson(contributor) then Ok("")
    else
      var fullname :- Resolve(contributor, FullnamePath);
      var initials :- InitialsText(contributor);
      var surname :- Resolve(contributor, SurnamePath);
      match Resolve(contributor, RolePath)
      case Ok(role) => Ok(TagWithRole(Display(fullname), initials, Display(surname), Display(role)))
      case Raise(KeyError) => Ok(TagWithoutRole(Display(fullname), initials, Display(surname)))
      case Raise(e) => Raise(e)
  }

  /** `contributor["person"]["name"]`, the prefix of the three name paths. */
  const NamePath: seq<Subscript> := [Key("person"), Key("name")]

  /** A person whose `name` cannot be looked up ends the record at the
      full-name lookup, with the exception that lookup raised. */
  lemma PersonWithoutName(contributor: Value)
    requires IsPerson(contributor) && Resolve(contributor, NamePath).Raise?
    ensures AuthorTag(contributor) == Raise(Resolve(contributor, NamePath).exc)
  {
    assert FullnamePath == NamePath + [Key("completename"), Key("content")];
    ResolveAppend(contributor, NamePath, [Key("completename"), Key("content")]);
  }

  /** The text of a person's tag when every lookup succeeds: which of the two
      shapes is chosen depends only on whether `role[0].type` resolves. */
  lemma PersonTag(contributor: Value, fullname: Value, surname: Value)
    requires IsPerson(contributor)
    requires Resolve(contributor, FullnamePath) == Ok(fullname)
    requires Resolve(contributor, SurnamePath) == Ok(surname)
    requires InitialsText(contributor).Ok?
    ensures Resolve(contributor, RolePath).Ok? ==>
              AuthorTag(contributor) == Ok(TagWithRole(Display(fullname), InitialsText(contributor).value,
                                                       Display(surname), Display(Resolve(contributor, RolePath).value)))
    ensures Resolve(contributor, RolePath) == Raise(KeyError) ==>
              AuthorTag(contributor) == Ok(TagWithoutRole(Display(fullname), InitialsText(contributor).value, Display(surname)))
    ensures Resolve(contributor, RolePath).Raise? && Resolve(contributor, RolePath).exc != KeyError ==>
              AuthorTag(contributor) == Raise(Resolve(contributor, RolePath).exc)
  {
  }

  /** A person with a full name and a surname but neither initials nor a
      role. */
  function NoInitialsNoRole(): Value
  {
    Dict([Entry("person", Dict([Entry("name", Dict([
      Entry("completename", Dict([Entry("content", Str("Jane Doe"))])),
      Entry("surname", Dict([Entry("content", Str("Doe"))]))]))]))])
  }

  lemma NoInitialsNoRoleLookups()
    ensures IsPerson(NoInitialsNoRole())
    ensures Resolve(NoInitialsNoRole(), FullnamePath) == Ok(Str("Jane Doe"))
    ensures Resolve(NoInitialsNoRole(), SurnamePath) == Ok(Str("Doe"))
    ensures Resolve(NoInitialsNoRole(), InitialsPath) == Raise(KeyError)
    ensures Resolve(NoInitialsNoRole(), RolePath) == Raise(KeyError)
  {
    var c := NoInitialsNoRole();
    var person := c.entries[0].val;
    var name := person.entries[0].val;
    assert Keys(c.entries) == ["person"];
    assert Keys(person.entries) == ["name"];
    assert Keys(name.entries) == ["completename", "surname"];
  }

  /** Such a person's tag keeps the stray quote after the empty initials slot
      and leaves the surname's value unclosed. */
  lemma TagWithoutInitialsOrRole()
    ensures AuthorTag(NoInitialsNoRole()) == Ok("<author fullname=\"Jane Doe\" \" surname=\"Doe/>")
  {
    NoInitialsNoRoleLookups();
    assert InitialsText(NoInitialsNoRole()) == Ok("");
    assert AuthorTag(NoInitialsNoRole()) == Ok(TagWithoutRole("Jane Doe", "", "Doe"));
    NoInitialsNoRoleText();
  }

  lemma NoInitialsNoRoleText()
    ensures TagWithoutRole("Jane Doe", "", "Doe") == "<author fullname=\"Jane Doe\" \" surname=\"Doe/>"
  {
    assert AuthorOpen + "Jane Doe" + "\" " + "" == "<author fullname=\"Jane Doe\" ";
  }

  /** The number of double-quote characters in `s`. */
  function QuoteCount(s: string): nat
  {
    if s == [] then 0 else QuoteCount(s[..|s| - 1]) + (if s[|s| - 1] == '"' then 1 else 0)
  }

  lemma {:induction false} QuoteCountAppend(a: string, b: string)
    ensures QuoteCount(a + b) == QuoteCount(a) + QuoteCount(b)
  {
    if b == [] {
      assert a + b == a;
    } else {
      assert (a + b)[..|a + b| - 1] == a + b[..|b| - 1];
      QuoteCountAppend(a, b[..|b| - 1]);
    }
  }

  /** The tag with a role holds an odd number of double quotes when the
      values put into it hold none, so its attributes cannot all be closed. */
  lemma TagWithRoleUnbalanced(fullname: string, initials: string, surname: string, role: string)
    requires QuoteCount(fullname) == 0 && QuoteCount(surname) == 0 && QuoteCount(role) == 0
    requires QuoteCount(initials) % 2 == 0
    ensures QuoteCount(TagWithRole(fullname, initials, surname, role)) % 2 == 1
  {
    var t1 := AuthorOpen + fullname;
    QuoteCountAppend(AuthorOpen, fullname);
    var t2 := t1 + "\" ";
    QuoteCountAppend(t1, "\" ");
    var t3 := t2 + initials;
    QuoteCountAppend(t2, initials);
    var t4 := t3 + " surname=\"";
    QuoteCountAppend(t3, " surname=\"");
    var t5 := t4 + surname;
    QuoteCountAppend(t4, surname);
    var t6 := t5 + " role=\"";
    QuoteCountAppend(t5, " role=\"");
    var t7 := t6 + role;
    QuoteCountAppend(t6, role);
    QuoteCountAppend(t7, "\"/>");
    TemplateQuoteCounts();
  }

  lemma TemplateQuoteCounts()
    ensures QuoteCount(AuthorOpen) == 1
    ensures QuoteCount("\" ") == 1
    ensures QuoteCount(" surname=\"") == 1
    ensures QuoteCount(" role=\"") == 1
    ensures QuoteCount("\"/>") == 1
  {
    QuoteFree("<author fullname=");
    QuoteCountAppend("<author fullname=", "\"");
    assert AuthorOpen == "<author fullname=" + "\"";
    QuoteFree(" ");
    QuoteCountAppend("\"", " ");
    assert "\" " == "\"" + " ";
    QuoteFree(" surname=");
    QuoteCountAppend(" surname=", "\"");
    assert " surname=\"" == " surname=" + "\"";
    QuoteFree(" role=");
    QuoteCountAppend(" role=", "\"");
    assert " role=\"" == " role=" + "\"";
    QuoteFree("/>");
    QuoteCountAppend("\"", "/>");
    assert "\"/>" == "\"" + "/>";
  }

  lemma {:induction false} QuoteFree(s: string)
    requires '"' !in s
    ensures QuoteCount(s) == 0
  {
    if s != [] {
      assert s[..|s| - 1] + [s[|s| - 1]] == s;
      QuoteFree(s[..|s| - 1]);
    }
  }

  /** What each pass of get_authors' loop adds or raises, one per contributor. */
  function TagOutcomes(cs: seq<Value>): (tags: seq<Outcome<string>>)
    ensures |tags| == |cs| && forall i | 0 <= i < |cs| :: tags[i] == AuthorTag(cs[i])
  {
    seq(|cs|, i requires 0 <= i < |cs| => AuthorTag(cs[i]))
  }

  /** The accumulator `authors` after the passes `tags`, appended in order,
      or the exception of the first pass that raised. */
  function Appended(tags: seq<Outcome<string>>): Outcome<string>
  {
    if tags == [] then Ok("")
    else
      var authors :- Appended(tags[..|tags| - 1]);
      var tag :- tags[|tags| - 1];
      Ok(authors + tag)
  }

  /** What get_authors returns or raises for a whole record. */
  function Authors(data: Value): (r: Outcome<string>)
    ensures Sub(data, Key("contributor")).Raise? ==> r == Raise(Sub(data, Key("contributor")).exc)
    ensures Sub(data, Key("contributor")) == Ok(List([])) ==> r == Ok("")
  {
    var contributors :- Sub(data, Key("contributor"));
    var cs :- Iterate(contributors);
    Appended(TagOutcomes(cs))
  }

  /** Once a pass has raised, later passes change nothing. */
  lemma {:induction false} AppendedRaiseStays(tags: seq<Outcome<string>>, k: nat)
    requires k <= |tags|
    requires Appended(tags[..k]).Raise?
    ensures Appended(tags) == Appended(tags[..k])
    decreases |tags|
  {
    if k < |tags| {
      var front := tags[..|tags| - 1];
      assert front[..k] == tags[..k];
      AppendedRaiseStays(front, k);
    } else {
      assert tags[..k] == tags;
    }
  }

  /** get_authors: one tag per person contributor, appended in contributor
      order to the accumulator `authors`. */
  method GetAuthors(data: Value) returns (r: Outcome<string>)
    ensures r == Authors(data)
  {
    var contributors := Sub(data, Key("contributor"));
    if contributors.Raise? {
      return Raise(contributors.exc);
    }
    var visited := Iterate(contributors.value);
    if visited.Raise? {
      return Raise(visited.exc);
    }
    var cs := visited.value;
    ghost var tags := TagOutcomes(cs);
    var authors := "";
    var i := 0;
    while i < |cs|
      invariant 0 <= i <= |cs|
      invariant Appended(tags[..i]) == Ok(authors)
    {
      var tag := AuthorTag(cs[i]);
      assert tags[..i + 1][..i] == tags[..i] && tags[i] == tag;
      if tag.Raise? {
        AppendedRaiseStays(tags, i + 1);
        return Raise(tag.exc);
      }
      authors := authors + tag.value;
      i := i + 1;
    }
    assert tags[..i] == tags;
    return Ok(authors);
  }

  /** The person contributors, in order: those that get a tag. */
  function Persons(cs: seq<Value>): (ps: seq<Value>)
    ensures forall p | p in ps :: IsPerson(p)
    ensures |ps| <= |cs|
  {
    if cs == [] then []
    else
      var front := Persons(cs[..|cs| - 1]);
      if IsPerson(cs[|cs| - 1]) then front + [cs[|cs| - 1]] else front
  }

  /** The persons are exactly the contributors that are persons: none is
      dropped and nothing else is kept. */
  lemma {:induction false} PersonsKeepsPersons(cs: seq<Value>)
    ensures forall c :: c in Persons(cs) <==> c in cs && IsPerson(c)
    decreases |cs|
  {
    if cs != [] {
      var front := cs[..|cs| - 1];
      PersonsKeepsPersons(front);
      assert cs == front + [cs[|cs| - 1]];
    }
  }

  function TagText(contributor: Value): string
  {
    match AuthorTag(contributor)
    case Ok(tag) => tag
    case Raise(_) => ""
  }

  /** Concatenation without separator. */
  function Concat(parts: seq<string>): string
  {
    if parts == [] then "" else Concat(parts[..|parts| - 1]) + parts[|parts| - 1]
  }

  /** `f` applied to each of `vs`, in order. */
  function MapText(f: Value -> string, vs: seq<Value>): (texts: seq<string>)
    ensures |texts| == |vs| && forall i | 0 <= i < |vs| :: texts[i] == f(vs[i])
  {
    seq(|vs|, i requires 0 <= i < |vs| => f(vs[i]))
  }

  /** The tags of the person contributors `ps`, in order. */
  function TagsOf(ps: seq<Value>): seq<string>
  {
    MapText(TagText, ps)
  }

  /** The text each pass adds, or "" for a pass that raised. */
  function Texts(tags: seq<Outcome<string>>): (texts: seq<string>)
    ensures |texts| == |tags|
  {
    seq(|tags|, i requires 0 <= i < |tags| => if tags[i].Ok? then tags[i].value else "")
  }

  /** Passes that all succeed leave the concatenation of their texts. */
  lemma {:induction false} AppendedAllOk(tags: seq<Outcome<string>>)
    requires forall i | 0 <= i < |tags| :: tags[i].Ok?
    ensures Appended(tags) == Ok(Concat(Texts(tags)))
    decreases |tags|
  {
    if tags != [] {
      var front := tags[..|tags| - 1];
      AppendedAllOk(front);
      assert Texts(tags)[..|tags| - 1] == Texts(front);
    }
  }

  lemma TextsOfTagOutcomes(cs: seq<Value>)
    ensures Texts(TagOutcomes(cs)) == MapText(TagText, cs)
  {
  }

  /** One more element appends its text to the concatenation. */
  lemma ConcatTextsLast(f: Value -> string, vs: seq<Value>, v: Value)
    ensures Concat(MapText(f, vs + [v])) == Concat(MapText(f, vs)) + f(v)
  {
    var texts := MapText(f, vs + [v]);
    assert texts[..|vs|] == MapText(f, vs);
  }

  /** When every contributor that is not a person has the empty text, the
      texts of all contributors concatenate to the texts of the persons. */
  lemma {:induction false} PersonTexts(f: Value -> string, cs: seq<Value>)
    requires forall i | 0 <= i < |cs| :: !IsPerson(cs[i]) ==> f(cs[i]) == ""
    ensures Concat(MapText(f, cs)) == Concat(MapText(f, Persons(cs)))
    decreases |cs|
  {
    if cs != [] {
      var front := cs[..|cs| - 1];
      var last := cs[|cs| - 1];
      assert forall i | 0 <= i < |front| :: front[i] == cs[i];
      PersonTexts(f, front);
      ConcatTextsLast(f, front, last);
      assert front + [last] == cs;
      if IsPerson(last) {
        ConcatTextsLast(f, Persons(front), last);
      } else {
        assert Persons(cs) == Persons(front);
        var before := Concat(MapText(f, Persons(front)));
        assert before + f(last) == before;
      }
    }
  }

  /** When no contributor raises, get_authors returns the tags of the person
      contributors, one each, in contributor order, with no separator; the
      other contributors add nothing. */
  lemma AuthorsArePersonTags(cs: seq<Value>)
    requires forall i | 0 <= i < |cs| :: AuthorTag(cs[i]).Ok?
    ensures Appended(TagOutcomes(cs)) == Ok(Concat(TagsOf(Persons(cs))))
  {
    AppendedAllOk(TagOutcomes(cs));
    TextsOfTagOutcomes(cs);
    forall i | 0 <= i < |cs| && !IsPerson(cs[i])
      ensures TagText(cs[i]) == ""
    {
      assert cs[i].Dict?;
    }
    PersonTexts(TagText, cs);
  }

  /** Passes that all succeed leave a string in the accumulator. */
  lemma {:induction false} AppendedOk(tags: seq<Outcome<string>>)
    requires forall i | 0 <= i < |tags| :: tags[i].Ok?
    ensures Appended(tags).Ok?
    decreases |tags|
  {
    if tags != [] {
      AppendedOk(tags[..|tags| - 1]);
    }
  }

  /** The first contributor whose pass raises decides what get_authors raises. */
  lemma AuthorsFirstRaise(cs: seq<Value>, i: nat)
    requires i < |cs|
    requires forall j | 0 <= j < i :: AuthorTag(cs[j]).Ok?
    requires AuthorTag(cs[i]).Raise?
    ensures Appended(TagOutcomes(cs)) == Raise(AuthorTag(cs[i]).exc)
  {
    var tags := TagOutcomes(cs);
    AppendedOk(tags[..i]);
    var upto := tags[..i + 1];
    assert upto[..|upto| - 1] == tags[..i] && upto[|upto| - 1] == tags[i];
    AppendedRaiseStays(tags, i + 1);
  }

  // ---------------------------------------------------------------------
  // generate_bibxml and the output file name

  /** The pair generate_bibxml returns: `[rfc_number, bibxml]`. */
  datatype Bibxml = Bibxml(rfcNumber: Value, xml: string)

  /** The fixed template of generate_bibxml; the slots are interpolated as
      they are, without escaping. */
  function Reference(anchor: string, target: string, title: string, authors: string, date: string,
                     summary: string, rfcNumber: string, doi: string): string
  {
    ReferenceHead(anchor, target) + Front(title, authors, date, summary) + SeriesInfo(rfcNumber, doi)
  }

  function Front(title: string, authors: string, date: string, summary: string): string
  {
    "<front>\n    <title>" + title + "</title>\n    " + authors + "\n    " + date + "\n    " + summary + "\n</front>\n"
  }

  /** The template begins with the anchor line and ends with the two
      seriesInfo elements, whatever the other slots hold. */
  lemma ReferenceFrame(anchor: string, target: string, title: string, authors: string, date: string,
                       summary: string, rfcNumber: string, doi: string)
    ensures ReferenceHead(anchor, target) <= Reference(anchor, target, title, authors, date, summary, rfcNumber, doi)
    ensures EndsWith(Reference(anchor, target, title, authors, date, summary, rfcNumber, doi), SeriesInfo(rfcNumber, doi))
  {
    var head, front, tail := ReferenceHead(anchor, target), Front(title, authors, date, summary), SeriesInfo(rfcNumber, doi);
    assert (head + front + tail)[..|head|] == head;
  }

  predicate EndsWith(s: string, suffix: string)
  {
    |suffix| <= |s| && s[|s| - |suffix|..] == suffix
  }

  function ReferenceHead(anchor: string, target: string): string
  {
    "<reference anchor=\"" + anchor + "\" target=\"" + target + "\">\n"
  }

  function SeriesInfo(rfcNumber: string, doi: string): string
  {
    "<seriesInfo name=\"RFC\" value=\"" + rfcNumber + "\"/>\n<seriesInfo name=\"DOI\" value=\"" + doi + "\"/>\n</reference>"
  }

  /** `id` and `id[3:]` evaluate. */
  predicate NumberOk(data: Value)
  {
    Sub(data, Key("id")).Ok? && Slice(Sub(data, Key("id")).value, 3).Ok?
  }

  /** The `link` and `title` contents evaluate. */
  predicate ContentOk(data: Value)
  {
    GetContent(data, "link").Ok? && GetContent(data, "title").Ok?
  }

  /** generate_bibxml: the record's `id` is the anchor, `id[3:]` the RFC
      number; the extractors run in the source's order and the first
      exception ends the record. */
  function GenerateBibxml(data: Value): (r: Outcome<Bibxml>)
    ensures Sub(data, Key("id")).Raise? ==> r == Raise(Sub(data, Key("id")).exc)
    ensures Sub(data, Key("id")).Ok? && Slice(Sub(data, Key("id")).value, 3).Raise? ==>
              r == Raise(Slice(Sub(data, Key("id")).value, 3).exc)
    ensures NumberOk(data) && GetContent(data, "link").Raise? ==> r == Raise(GetContent(data, "link").exc)
    ensures NumberOk(data) && GetContent(data, "link").Ok? && GetContent(data, "title").Raise? ==>
              r == Raise(GetContent(data, "title").exc)
    ensures NumberOk(data) && ContentOk(data) && Doi(data).Raise? ==> r == Raise(Doi(data).exc)
    ensures NumberOk(data) && ContentOk(data) && Doi(data).Ok? && GetDate(data).Raise? ==> r == Raise(GetDate(data).exc)
    ensures NumberOk(data) && ContentOk(data) && Doi(data).Ok? && GetDate(data).Ok? && GetAbstract(data).Raise? ==>
              r == Raise(GetAbstract(data).exc)
    ensures (NumberOk(data) && ContentOk(data) && Doi(data).Ok? && GetDate(data).Ok? && GetAbstract(data).Ok?
             && Authors(data).Raise?) ==> r == Raise(Authors(data).exc)
    ensures r.Ok? <==> NumberOk(data) && ContentOk(data) && Doi(data).Ok? && GetDate(data).Ok? && GetAbstract(data).Ok?
                       && Authors(data).Ok?
    ensures r.Ok? ==> Slice(Sub(data, Key("id")).value, 3) == Ok(r.value.rfcNumber)
    ensures r.Ok? ==> r.value.xml == Reference(Display(Sub(data, Key("id")).value), Display(GetContent(data, "link").value),
                                               Display(GetContent(data, "title").value), Authors(data).value,
                                               GetDate(data).value, GetAbstract(data).value,
                                               Display(r.value.rfcNumber), Display(Doi(data).value))
    ensures r.Ok? ==> ReferenceHead(Display(Sub(data, Key("id")).value), Display(GetContent(data, "link").value)) <= r.value.xml
    ensures r.Ok? ==> EndsWith(r.value.xml, SeriesInfo(Display(r.value.rfcNumber), Display(Doi(data).value)))
  {
    var rfc :- Sub(data, Key("id"));
    var rfcNumber :- Slice(rfc, 3);
    var link :- GetContent(data, "link");
    var title :- GetContent(data, "title");
    var doi :- Doi(data);
    var date :- GetDate(data);
    var summary :- GetAbstract(data);
    var authors :- Authors(data);
    var xml := Reference(Display(rfc), Display(link), Display(title), authors, date, summary,
                         Display(rfcNumber), Display(doi));
    ReferenceFrame(Display(rfc), Display(link), Display(title), authors, date, summary,
                   Display(rfcNumber), Display(doi));
    Ok(Bibxml(rfcNumber, xml))
  }

  /** The name of the file the fragment is saved to: `reference.RFC.<number>.xml`. */
  function FileName(rfcNumber: Value): (name: string)
    ensures "reference.RFC." <= name && EndsWith(name, ".xml")
    ensures |name| == |Display(rfcNumber)| + 18
  {
    "reference.RFC." + Display(rfcNumber) + ".xml"
  }

  /** For an id `RFC<n>`, the RFC number is `n`: the anchor is `RFC` followed
      by the number, and the file is `reference.RFC.<n>.xml`. */
  lemma RfcNumberOfId(data: Value, n: string)
    requires Sub(data, Key("id")) == Ok(Str("RFC" + n))
    requires GenerateBibxml(data).Ok?
    ensures GenerateBibxml(data).value.rfcNumber == Str(n)
    ensures "RFC" + Display(GenerateBibxml(data).value.rfcNumber) == Display(Sub(data, Key("id")).value)
    ensures FileName(GenerateBibxml(data).value.rfcNumber) == "reference.RFC." + n + ".xml"
  {
    var id := "RFC" + n;
    assert id[..3] == "RFC" && id[3..] == n;
  }

  /** Distinct RFC numbers are saved to distinct files. */
  lemma FileNameInjective(a: string, b: string)
    requires FileName(Str(a)) == FileName(Str(b))
    ensures a == b
  {
    var prefix := "reference.RFC.";
    var fa, fb := FileName(Str(a)), FileName(Str(b));
    assert |a| == |b|;
    assert a == fa[|prefix|..|prefix| + |a|];
    assert b == fb[|prefix|..|prefix| + |b|];
  }

  /** A record whose `docid` has no DOI entry renders `value="None"` in the
      DOI seriesInfo element. */
  lemma MissingDoiRendersNone(data: Value)
    requires GenerateBibxml(data).Ok?
    requires Sub(data, Key("docid")).Ok? && Iterate(Sub(data, Key("docid")).value).Ok?
    requires var es := Iterate(Sub(data, Key("docid")).value).value;
             forall j | 0 <= j < |es| :: Sub(es[j], Key("type")).Ok? && Sub(es[j], Key("type")).value != Str("DOI")
    ensures EndsWith(GenerateBibxml(data).value.xml, SeriesInfo(Display(GenerateBibxml(data).value.rfcNumber), "None"))
  {
    NoDoiEntry(data);
    NoneText();
  }

  /** `str(None)` */
  lemma NoneText()
    ensures Display(Null) == "None"
  {
  }

  /** get_doi gives `None` for a record whose `docid` entries all have a
      type other than "DOI". */
  lemma NoDoiEntry(data: Value)
    requires Sub(data, Key("docid")).Ok? && Iterate(Sub(data, Key("docid")).value).Ok?
    requires var es := Iterate(Sub(data, Key("docid")).value).value;
             forall j | 0 <= j < |es| :: Sub(es[j], Key("type")).Ok? && Sub(es[j], Key("type")).value != Str("DOI")
    ensures Doi(data) == Ok(Null)
  {
    FirstDoiNone(Iterate(Sub(data, Key("docid")).value).value);
  }

  /** Interpolation without escaping: markup inside a title can make two
      different records render the same text. */
  lemma UnescapedSlotsCollide(anchor: string, target: string, date: string, summary: string, rfcNumber: string, doi: string)
    ensures Reference(anchor, target, "T</title>\n    A", "", date, summary, rfcNumber, doi)
         == Reference(anchor, target, "T", "A</title>\n    ", date, summary, rfcNumber, doi)
  {
    assert "<front>\n    <title>" + "T</title>\n    A" + "</title>\n    " + ""
        == "<front>\n    <title>" + "T" + "</title>\n    " + "A</title>\n    ";
  }
}
