# rel2bib: Relaton RFC record to bibxml reference

rel2bib converts Relaton records of RFCs into bibxml `<reference>`
fragments. A record is one YAML file, which the loader parses into plain
Python values. This project models the conversion of one parsed record.

- `get_content` and `get_abstract` extract the `link`, `title` and
  `abstract` fields. A `KeyError` on the path gives the empty string.
- `get_doi` returns the `id` of the first `docid` entry whose type is
  `"DOI"`, or `None` when there is no such entry.
- `get_date` parses `date[0].value` with `strptime("%Y-%m")` and renders
  the `<date>` element with `strftime`.
- `get_authors` writes one `<author>` tag per person contributor. The
  initials and the role are optional.
- `generate_bibxml` puts the fields into the fixed template and returns
  `[rfc_number, bibxml]`.
- The output file is named `reference.RFC.<rfc_number>.xml`.

The files are:

- `values.dfy` (module `Values`): the parsed values. A mapping is an
  ordered list of entries. The module also holds the parts of Python's
  semantics the converter relies on:
  - subscripting and subscript chains;
  - slicing `v[3:]`;
  - iteration by a `for` loop;
  - truth value;
  - `str()` and `repr()`.

  A Python exception is the outcome `Raise(e)`, where `e` is its kind.
- `dates.dfy` (module `Dates`): `strptime` with the format `%Y-%m`, and the
  `<date>` element `strftime` writes.
- `rfc.dfy` (module `Rfc`): the extractors, the template and the file name.

The two loops of the converter are methods proved against functions:

- `GetDoi` is proved against `Doi`.
- `GetAuthors` is proved against `Authors`.

The rest of the converter is pure and is modelled as functions.

In these cases the model keeps what the code does, even where another reading might be expected:

- **Missing DOI.** A record without a DOI-typed `docid` renders
  `value="None"`. It does not render an empty value (`MissingDoiRendersNone`).
- **Missing `docid`.** A record without `docid` raises `KeyError` (`Doi`).
  It is not treated as "no DOI".
- **Caught exceptions.** Only `KeyError` is caught, and only on the three
  defaulted paths. An empty list at `[0]`, a value that cannot be
  subscripted or iterated, a contributor that is not a mapping, and an
  unparsable date all end the record.
- **Author tags.** The two author-tag shapes keep the source's quoting.
  The tag with a role does not close the surname's value. The tag without
  a role has a stray quote after the initials and leaves the surname
  unclosed (`TagWithRoleUnbalanced`, `TagWithoutInitialsOrRole`).

## Model

| member | source | states |
|---|---|---|
| Values.Find | rfc.py:14 | a dict lookup succeeds exactly when the key is present, returns a value stored under that key, and otherwise raises `KeyError` |
| Values.Sub | rfc.py:14 | `d["k"]` on a dict is the dict lookup of `k`; `v[k]` raises `KeyError` exactly on a dict without the key (or `[0]` on a dict), `IndexError` exactly on `[0]` of an empty list or string, `TypeError` exactly for a string key on a list or string and for any subscript on a value that is none of dict, list or string; `[0]` gives the first item or character |
| Values.Resolve | rfc.py:14 | a chain of subscripts such as `data[field][0]["content"]`, applied left to right; the first exception ends the chain and is its outcome |
| Values.ResolveAppend | rfc.py:43-53 | a subscript chain `p + q` is the chain `p` followed by `q` on its result, and an exception in `p` ends it |
| Values.Slice | rfc.py:63 | `v[n:]` is defined exactly on strings and lists, is what follows the first `n` elements (empty when shorter), and raises `TypeError` otherwise |
| Values.Iterate | rfc.py:41 | a `for` loop visits a list's items, a dict's keys or a string's characters, and raises `TypeError` on any other value |
| Values.Truthy | rfc.py:21 | Python's truth value: empty strings, lists and dicts, zero, `False` and `None` are false, and every other value is true |
| Values.Display | rfc.py:22 | what an f-string slot inserts, `str(v)`: a string as it is, and any other value as its `repr` |
| Values.Repr | rfc.py:71-80 | Python's `repr`: a string in quotes with escapes, an int in decimal, `True`/`False`, `None`, and lists and dicts as `[a, b]` and `{'k': v}` with `, ` between items |
| Dates.MonthFieldLength | rfc.py:35 | how many characters `%m`'s pattern takes from the front of the text, its alternatives `1[0-2]`, `0[1-9]` and `[1-9]` tried in that order: at most 2, and never more than the text holds |
| Dates.ParseYearMonth | rfc.py:35 | `strptime("%Y-%m")` fails only with `ValueError`; a parse gives a year 1 to 9999 and a month 1 to 12, and the text is that year, a hyphen and the month in two digits or, below 10, one |
| Dates.ParseCanonical | rfc.py:35 | every valid `YYYY-MM` text parses back to its year and month |
| Dates.ParseOneDigitMonth | rfc.py:35 | a month 1 to 9 written with one digit is accepted |
| Dates.MonthOutOfRange | rfc.py:35 | months 00 and 13 to 99 raise `ValueError` |
| Dates.DateElement | rfc.py:36 | `<date month="<English month name>" year="<four year digits>"/>`, as `strftime` writes it |
| Rfc.GetContent | rfc.py:12-16 | the content at `data[field][0]["content"]` when it resolves; `""` exactly when the path raises `KeyError` or holds `""`; every other exception escapes unchanged; an empty list at the field raises `IndexError`; a missing field gives `""` |
| Rfc.GetAbstract | rfc.py:19-24 | exceptions of get_content propagate; the result is `""` exactly when the content is falsy, otherwise the content wrapped in `<abstract><t>…</t></abstract>`; a missing abstract gives `""` |
| Rfc.FirstDoi | rfc.py:28-30 | the scan of the `docid` entries: the `id` of the first entry whose `type` is the string "DOI", `None` when none is, and the exception of the first `type` or `id` lookup that raises |
| Rfc.Doi | rfc.py:27-30 | an exception on `data["docid"]` propagates, a missing `docid` raises `KeyError`, and an empty list gives `None` |
| Rfc.GetDoi | rfc.py:27-30 | the loop returns exactly what `Doi` specifies |
| Rfc.FirstDoiAt | rfc.py:28-30 | the DOI is the `id` of the first entry whose type is "DOI", whatever follows it |
| Rfc.FirstDoiNone | rfc.py:27-30 | when every entry has a non-"DOI" type the result is `None` |
| Rfc.FirstDoiRaises | rfc.py:28-29 | an entry without a `type` before any DOI entry raises that lookup's exception |
| Rfc.GetDate | rfc.py:33-36 | lookup exceptions propagate, a non-string date raises `TypeError`, and a string gives the `<date>` element of its parse or `ValueError` |
| Rfc.DateOfCanonicalText | rfc.py:33-36 | a `YYYY-MM` date renders with the month's English name and the same four year digits |
| Rfc.DateMonthOutOfRange | rfc.py:34-35 | a two-digit month outside 1 to 12 raises `ValueError` rather than defaulting |
| Rfc.InitialsText | rfc.py:44-50 | `initials="…"` when the initials path resolves, `""` exactly when it raises `KeyError`, and any other exception escapes unchanged |
| Rfc.TagWithRole | rfc.py:54 | the tag with a role starts with `<author fullname="` and ends with ` surname="<surname> role="<role>"/>`: nothing closes the surname's value before ` role=` |
| Rfc.TagWithoutRole | rfc.py:56 | the tag without a role starts with `<author fullname="` and ends with `" surname="<surname>/>`: a stray quote before ` surname=`, and the surname's value is never closed |
| Rfc.AuthorTag | rfc.py:42-56 | a non-mapping contributor raises `AttributeError`; a mapping without `person` adds nothing; a person's tag starts with `<author fullname="`; a full-name lookup failure propagates, then an initials failure other than `KeyError`, then a surname lookup failure |
| Rfc.PersonWithoutName | rfc.py:43 | a person whose `name` cannot be looked up ends the record at the full-name lookup with that lookup's exception |
| Rfc.PersonTag | rfc.py:52-56 | a resolved role gives the tag with a role, a role raising `KeyError` gives the tag without, and any other role exception escapes |
| Rfc.TagWithoutInitialsOrRole | rfc.py:56 | a person with no initials and no role gets `<author fullname="Jane Doe" " surname="Doe/>`, with the stray quote |
| Rfc.TagWithRoleUnbalanced | rfc.py:54 | the tag with a role holds an odd number of double quotes when its values hold none, so it is never well-formed XML |
| Rfc.Appended | rfc.py:40-56 | the accumulator `authors` after the given passes: starting from `""`, each pass's tag appended in order, or the exception of the first pass that raises |
| Rfc.Authors | rfc.py:39-58 | an exception on `data["contributor"]` propagates, and an empty contributor list gives `""` |
| Rfc.GetAuthors | rfc.py:39-58 | the loop returns exactly what `Authors` specifies |
| Rfc.AppendedRaiseStays | rfc.py:41-56 | once a pass of the loop has raised, later contributors do not change the outcome |
| Rfc.AppendedOk | rfc.py:41-56 | passes that all succeed leave a string in the accumulator |
| Rfc.Persons | rfc.py:42 | the contributors that get a tag are all persons, and there are no more of them than contributors |
| Rfc.PersonsKeepsPersons | rfc.py:42 | the contributors that get a tag are exactly the contributors that are persons |
| Rfc.AppendedAllOk | rfc.py:40-58 | when every pass succeeds, the accumulator is the concatenation of their texts in order |
| Rfc.PersonTexts | rfc.py:42 | when contributors that are not persons add nothing, the texts of all contributors concatenate to those of the persons alone |
| Rfc.AuthorsArePersonTags | rfc.py:40-58 | when no contributor raises, the result is the person contributors' tags concatenated in order without separator, and organizations add nothing |
| Rfc.AuthorsFirstRaise | rfc.py:41-58 | the first contributor whose pass raises decides the exception of get_authors |
| Rfc.Reference | rfc.py:71-80 | the whole template: the anchor line, then the front block, then the two seriesInfo elements and the closing tag, with the slots inserted unescaped |
| Rfc.ReferenceHead | rfc.py:71 | the line `<reference anchor="…" target="…">` and its newline |
| Rfc.Front | rfc.py:72-77 | the `<front>` block: the title element, then the authors, the date and the abstract on lines of their own indented by four spaces |
| Rfc.SeriesInfo | rfc.py:78-80 | the RFC and DOI seriesInfo elements and the closing `</reference>`, with no newline after it |
| Rfc.ReferenceFrame | rfc.py:71-80 | the template begins with the `<reference anchor=… target=…>` line and ends with the two seriesInfo elements, whatever the other slots hold |
| Rfc.GenerateBibxml | rfc.py:61-82 | the steps run in the source's order (`id`, `id[3:]`, link, title, DOI, date, abstract, authors) and the first that raises gives the exception; it succeeds exactly when all of them do, the RFC number is then `id[3:]` and the fragment is the template filled with the anchor, link, title, authors, date, abstract, RFC number and DOI; it starts with the anchor/target line and ends with the two seriesInfo elements |
| Rfc.FileName | rfc.py:101 | the output file name starts with `reference.RFC.` and ends with `.xml`, and is 18 characters longer than `str(rfc_number)` |
| Rfc.RfcNumberOfId | rfc.py:62-63 | for an id `RFC<n>` the RFC number is `n`, `RFC` plus the number is the anchor, and the file is `reference.RFC.<n>.xml` |
| Rfc.FileNameInjective | rfc.py:101 | distinct RFC numbers give distinct file names |
| Rfc.NoDoiEntry | rfc.py:27-30 | get_doi gives `None` when every `docid` entry has a type other than "DOI" |
| Rfc.NoneText | rfc.py:79 | `None` is interpolated as the text `None` |
| Rfc.MissingDoiRendersNone | rfc.py:27-30 | a record with no DOI-typed `docid` entry ends with `<seriesInfo name="DOI" value="None"/>` |
| Rfc.UnescapedSlotsCollide | rfc.py:71-80 | slots are interpolated without escaping, so two different titles and author lists can render the same fragment |

## Left out

- YAML parsing is left out. The model starts from the parsed values.
- Mapping keys that are not strings are left out. `d[0]` on a mapping is
  therefore always a `KeyError`.
- `Value` leaves out some kinds of parsed YAML:
  - binary data;
  - sets;
  - ordered pair lists.

  The model also admits a mapping with the same key twice, which no parsed
  mapping can hold. A lookup in such a mapping takes the first entry.
- Floats and YAML timestamps are left out of `Value`. The date field is
  read as a string, and any other value raises `TypeError`.
- The driver is left out:
  - reading the environment variables;
  - the directory check, its message and exit status;
  - listing the directory;
  - opening and writing files;
  - the progress messages.

  Only the name of the output file is modelled (`FileName`). The directory
  it is joined to, `RELATON_DIR`, is not part of this model.
- Dates.ParseYearMonth: `%Y` in `strptime` also accepts non-ASCII Unicode
  digits. The model accepts ASCII digits only.
- Dates.DateElement: the year is rendered as the four digits parsed. Some
  platforms print years below 1000 without leading zeros. `%B` is taken in
  the C locale.
- Values.Repr: `repr` of strings escapes ASCII control characters only.
  The escaping of non-printable non-ASCII characters is left out.
- Values.Slice: slicing a mapping raises `TypeError`. This is the behaviour
  before Python 3.12; newer versions raise `KeyError`.
- Rfc.AuthorTag: its contract gives how a tag begins and every error case,
  in lookup order. The lookups are the full name, the initials, the surname
  and the role. The full text of each of the two tag shapes is stated by
  `PersonTag`, not by `AuthorTag` itself.
