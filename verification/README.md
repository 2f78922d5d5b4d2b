# Animal page renderer — a Dafny model

This project models the HTML renderer of the Zootopia animal-page generator:
`generate_html(animal_name, animals_data)`. It takes a search term and the
animal records the lookup service returned for it, and builds a flat markup
page by string concatenation.

- With no records, the page is the single heading
  `<h2>The animal "<term>" doesn't exist.</h2>`.
- Otherwise it is `<h1>Animals related to <term></h1>` followed by one block
  per record, in input order. Each block is
  `<h2>name</h2><p>Location(s): loc1, loc2</p><ul><li>k: v</li>…</ul>`.
- Field defaults apply only to an absent field. A missing `name` shows as
  `Unknown`. Missing `locations` or `characteristics` show as empty. A field
  that is present but empty is rendered as it is.
- No text is escaped.

Files:

- `Records.dfy` (module `Records`): `Option`, the `Animal` record with three
  optional fields, and the default lookups (`DisplayName`, `LocationsOf`,
  `CharacteristicsOf`). A characteristics mapping is the sequence of its
  key/value pairs in iteration order.
- `Text.dfy` (module `Text`): `Concat` (the `"".join` idiom) and `Join`
  (`", ".join`), with lemmas on order, placement and length.
- `Render.dfy` (module `Render`): the page pieces and `GenerateHtml`, the
  functional definition of the page. `BuildPage` (the loop over records)
  and `BuildList` (the generator over characteristics) are the loops the
  source is written as, each proved equal to the functional definition.
  Lemmas state the header prefix, the per-record order, the lengths and the
  defaults.

## Model

| member | source | states |
|---|---|---|
| Render.GenerateHtml | animals_web_generator.py:36-54 | Total for every term and every sequence of string-typed records. The page is the not-found heading exactly when there are no records. With records, the page starts with the `Animals related to` header. |
| Render.BuildPage | animals_web_generator.py:40-54 | The loop that starts from the header and, per record, appends its heading, locations paragraph and characteristics list produces exactly the functional page, including the not-found case. |
| Render.BuildList | animals_web_generator.py:48-51 | Joining the generated list items gives one `<li>key: value</li>` per pair, concatenated in the pairs' order. |
| Render.PartialPageSnoc | animals_web_generator.py:44-52 | Rendering one more record extends the page built so far by exactly that record's block; nothing already written changes. |
| Render.GenerateHtmlSnoc | animals_web_generator.py:43-54 | For a non-empty record sequence, adding a record at the end appends exactly its block to the page. |
| Render.GenerateHtmlAppend | animals_web_generator.py:43-54 | For a non-empty record sequence, appending more records appends their blocks, in order, to the page. |
| Render.PageIsHeaderThenBlocks | animals_web_generator.py:43-54 | A page with records is the header followed by the concatenated blocks and nothing else. |
| Render.BlockAt | animals_web_generator.py:43-52 | Record i's block sits in the page exactly where the header plus the blocks of records 0..i-1 end. So there is one block per record, in input order. |
| Render.PageLength | animals_web_generator.py:43-54 | A page with records is exactly as long as the header plus all blocks, so the header and the blocks fill the whole page. |
| Render.LocationLineLength | animals_web_generator.py:46 | The locations paragraph is exactly as long as its fixed text, the locations, and one `, ` between each neighbouring pair; no locations give the bare `<p>Location(s): </p>`. |
| Render.ItemAt | animals_web_generator.py:49-52 | Characteristic j's `<li>key: value</li>` sits right after the items of pairs 0..j-1, in the mapping's order. |
| Render.BlockStartsWithName | animals_web_generator.py:45 | A block opens with `<h2>` + the name verbatim + `</h2>` when the name is present, even if empty. It opens with `<h2>Unknown</h2>` when the name is absent. |
| Render.EmptyNameIsNotDefaulted | animals_web_generator.py:45 | A present empty name and an absent name render differently: the default is not applied to an empty string. |
| Render.AbsentLocationsRenderEmpty | animals_web_generator.py:46 | Absent locations render the same as an empty list: the paragraph is `<p>Location(s): </p>` with no separator. |
| Render.AbsentCharacteristicsRenderEmpty | animals_web_generator.py:48-52 | Absent characteristics render the same as an empty mapping: the block ends with `<ul></ul>`. |
| Text.ConcatAppend | animals_web_generator.py:49-51 | Concatenating two piece sequences one after the other equals concatenating each and joining the results. |
| Text.PieceAt | animals_web_generator.py:49-51 | In a concatenation, piece i appears unaltered right after pieces 0..i-1. |
| Text.ConcatLength | animals_web_generator.py:49-51 | A concatenation is exactly as long as the sum of its pieces' lengths. |
| Text.JoinEmpty | animals_web_generator.py:46 | Joining no locations gives the empty string. |
| Text.JoinSingle | animals_web_generator.py:46 | A single location is joined with no separator. |
| Text.JoinSnoc | animals_web_generator.py:46 | Adding a location to a non-empty list adds exactly one `, ` and then that location. |
| Text.JoinIsFirstThenPrefixed | animals_web_generator.py:46 | A non-empty join is the first location followed by each later location with the separator in front of it. This is an independent reading of `sep.join`. |
| Text.JoinEnds | animals_web_generator.py:46 | A non-empty join starts with the first location and ends with the last one, so there is no leading or trailing separator. |
| Text.JoinLength | animals_web_generator.py:46 | A join of n locations is as long as the locations plus n-1 separators. |

## Left out

- `fetch_data` (HTTP GET, JSON decoding, exception handling): this is network I/O through a foreign library. Its result normalisation is also not modelled: a falsy payload becomes `[]` and a failure becomes `None`.
- API key loading from the environment and `.env`: process environment.
- `main` (stdin prompt, `strip()`, console messages, writing `animals.html`) and its `None`-versus-list branch: this is plumbing around I/O. The renderer is modelled for every term, including the empty one.
- Records that are not string-typed are not modelled. The `Animal` type admits only a string name, a list of strings as locations and string-to-string characteristics, so `GenerateHtml` is total only on such records. The source behaves differently on other JSON it receives unchanged from the lookup service:
  - a non-string `name`, characteristic key or characteristic value is rendered through f-string `str()` conversion (lines 45 and 50);
  - a null `locations`, or a non-string entry in it, makes `', '.join` raise `TypeError` (line 46);
  - a `locations` value that is itself a string is split into its characters by `join` (line 46);
  - a null or non-mapping `characteristics` makes `.items()` raise `AttributeError` (line 50);
  - a record that is not an object makes `.get` raise `AttributeError` (line 45).
  These exception paths end the run and produce no page.
- Duplicate characteristic keys: a dictionary cannot hold them, but the pair-sequence model admits them. The renderer treats every pair alike, so this only widens the input set.
- Well-formedness of the markup and counting tags in the output: field text is not escaped, so such properties do not hold for arbitrary records.
- Nothing is assumed about the search term: the renderer accepts any term, including the empty one, and branches only on whether the record list is empty (animals_web_generator.py:40).
