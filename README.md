# CodeIgniter 4 code generators and API responses, in Dafny

This project models two parts of CodeIgniter 4. Its contracts are proved by the Dafny verifier.

**The CLI code generators.**
- `GeneratorTrait` holds the shared state: the component, the directory, three flags and the stored command parameters.
- It turns the name a user typed into a fully qualified class name.
- It fills the `{namespace}`, `{class}` and `<@php` placeholders of the rendered template.
- It sorts the template's block of `use` imports.
- It joins the target file path.
- Three generators add their own rules:
  - the controller generator picks the parent class;
  - the session-migration generator sets the table and group defaults;
  - the cell generator derives a view name from the cell's class name.
- `BaseCommand` pads help titles into columns.

**The API `ResponseTrait`.** It decides a response's status and body and builds the error envelope of `fail`. Its helpers take their status from the `$codes` table.

## Modules

- `Wrappers`: `Option`.
- `Php`: the PHP built-ins the code relies on, over `seq<char>`:
  - `trim`/`ltrim`/`rtrim`;
  - `str_replace`, with a single search string or with arrays;
  - `explode`/`implode`, `ucfirst`, `strtolower` and `str_pad`;
  - PHP truthiness of `null`, `true` and strings.
- `BaseCommand`: `setPad` and `getPad`.
- `ClassNames`: the string rules of `qualifyClassName`, `parseTemplate` and the path join in `buildPath`. The pattern `/([a-z][a-z0-9_\/\\]+)(<component>)$/i` is a leftmost-match search.
- `Imports`: the import block of `buildContent`.
  - The multi-line pattern `(?:^use [^;]+;$\n?)+`.
  - `sort` as an in-place insertion sort on an array, ordered like `strcmp`.
  - What the built content is.
- `GeneratorTrait`: `getOption` and `buildPath` as functions of the parameters, and the class `Generator` with the trait's fields, setters, `qualifyClassName`, `buildContent`, `generateClass` and `generateView`.
- `Generators`: the controller, session-migration and cell generators.
- `ResponseTrait`: the `$codes` table, `respond`, `format`, `fail`, the helpers and `setResponseFormat`. The class `Responder` holds `$format` and `$codes`.

Framework services are parameters, grouped in `GeneratorTrait.Env` or passed directly:
- the command-line option lookup, the command-line segment and the prompt's answer;
- `APP_NAMESPACE`;
- the inflector helpers;
- the autoloader's directories;
- the template engine's output;
- the formatter.

## Model

| member | source | states |
|---|---|---|
| BaseCommand.SetPad | test_upload_code.php:1156-1161 | The result is `indent` spaces, then the item, then only spaces. Its length is `max + extra + indent`, or the prefixed item's length when that is longer, so nothing is cut. |
| BaseCommand.SetPadAligns | test_upload_code.php:1151-1161 | Titles no longer than `max` all pad to the same width, so descriptions line up. |
| BaseCommand.GetPad | test_upload_code.php:1170-1179 | The result is at least `pad` and at least every key's length plus `pad`. It equals `pad` or some key's length plus `pad`, so it is the longest key plus `pad`. |
| GeneratorTrait.GetOption | test_upload_code.php:1578-1585 | An absent key is looked up on the command line. A key stored as null reads as `true`, a bare flag. Any other stored value is returned as stored. |
| GeneratorTrait.StoredOptionIgnoresCli | test_upload_code.php:1578-1585 | A stored option never depends on the command line and is never null. It is truthy unless it holds "" or "0". |
| GeneratorTrait.Generator.constructor | test_upload_code.php:1257-1284 | A new generator has all three flags on and no parameters. |
| GeneratorTrait.Generator.SetHasClassName | test_upload_code.php:1541-1546 | Sets `hasClassName` and nothing else, and returns the generator itself. |
| GeneratorTrait.Generator.SetSortImports | test_upload_code.php:1553-1558 | Sets `sortImports` and nothing else, and returns the generator itself. |
| GeneratorTrait.Generator.SetEnabledSuffixing | test_upload_code.php:1565-1570 | Sets `enabledSuffixing` and nothing else, and returns the generator itself. |
| GeneratorTrait.Generator.QualifyClassName | test_upload_code.php:1419-1460 | The step-by-step rewrite of the typed name gives `ClassNames.QualifiedClassName`. The result starts with the root namespace and contains a backslash. |
| GeneratorTrait.PromptOnlyWithoutName | test_upload_code.php:1422-1430 | `ClassArgument` takes `params[0]` when it is set, else the segment. The prompt's answer is the name exactly when neither came with the command and a name is required; otherwise the answer does not matter, and a name that is not required reads as "". |
| ClassNames.FindMatch | test_upload_code.php:1439-1441 | Returns the leftmost start at which the class-name pattern matches. No earlier start matches, and `None` means no start matches at all. |
| ClassNames.MatchEndsWithSuffix | test_upload_code.php:1439-1441 | A matching name is longer than the component and ends with it, compared case-insensitively. |
| ClassNames.CanonicalSuffixIdempotent | test_upload_code.php:1441-1443 | Capitalising the matched component a second time changes nothing. |
| ClassNames.WithSuffix | test_upload_code.php:1445-1447 | The name is either kept or gets the capitalised component appended. |
| ClassNames.SuffixAppendedExactlyWhen | test_upload_code.php:1445-1447 | The component is appended if and only if suffixing is enabled, the `suffix` option is truthy and the name does not already match. What is appended equals the component, ignoring case. |
| ClassNames.CanonicalSuffixShape | test_upload_code.php:1439-1443 | `CanonicalSuffix` keeps a name without a match. A matching name keeps only the matched part, which still matches from its first character, and its component is capitalised. |
| ClassNames.CanonicalPath | test_upload_code.php:1450 | After normalisation the name never starts with a backslash or a slash. Its segments are stated by `CanonicalPathSegments`. |
| ClassNames.CanonicalPathSegments | test_upload_code.php:1450 | For any typed name, and any `pascalize` that adds no slash to a slash-free segment: the name is trimmed, slashes become backslashes and it is exploded. The segments of the result are then the pascalized segments with the leading empty ones dropped. When all of them are empty the result is "". |
| ClassNames.CanonicalPathJoin | test_upload_code.php:1450 | The normalised name is the implosion of the pascalized segments after the leading empty ones, and none of those segments holds a backslash. |
| ClassNames.Segments | test_upload_code.php:1450 | No segment holds a backslash or a slash. |
| ClassNames.NamespaceOption | test_upload_code.php:1453 | The namespace holds no slash and has no backslash at either end. Its value is stated by `NamespaceOptionValue`. |
| ClassNames.NamespaceOptionValue | test_upload_code.php:1453 | The namespace is the `namespace` option, or `APP_NAMESPACE` when the option is null, with slashes turned into backslashes and backslashes trimmed from both ends. A bare flag gives "1". |
| ClassNames.RootNamespace | test_upload_code.php:1453 | The root namespace ends in exactly one backslash. |
| ClassNames.RootNamespaceOfPlainName | test_upload_code.php:1453 | A namespace given without slashes at its ends comes back with one backslash added. |
| ClassNames.QualifiedUnderRoot | test_upload_code.php:1453-1459 | The qualified name starts with the root namespace and contains a backslash. A normalised name already under the root is returned unchanged. Any other name becomes root + directory + `\` + name, with every slash turned into a backslash. |
| ClassNames.PlacedUnder | test_upload_code.php:1455-1459 | `PlaceUnder` under a root ending in a backslash gives a name that starts with the root and contains a backslash. |
| ClassNames.TemplateNamespace | test_upload_code.php:1483 | The `{namespace}` value has no backslash at either end. |
| ClassNames.TemplateNamesOfBareClass | test_upload_code.php:1483-1489 | For a class without a backslash, `{namespace}` is empty and `{class}` is the whole name. |
| ClassNames.TemplateNamesOfQualified | test_upload_code.php:1483-1489 | For `ns\Short`, `{namespace}` is `ns` and `{class}` is `Short`: every segment but the last, then the last. |
| ClassNames.ReplaceEachAbsent | test_upload_code.php:1491 | `str_replace` with arrays leaves alone a text in which no search string occurs. |
| ClassNames.ParseTemplatePlainText | test_upload_code.php:1480-1492 | A rendered text without `<`, `{` or any caller search string comes out of `parseTemplate` unchanged. The three built-in placeholders are the only extra substitutions. |
| ClassNames.ParseTemplateSteps | test_upload_code.php:1480-1492 | When the caller's search strings do not occur in the text and each has a replacement, `ParseTemplate` replaces `<@php`, then `{namespace}`, then `{class}`, in that order. |
| ClassNames.ParseTemplateCallerPairs | test_upload_code.php:1483-1491 | The caller's two pairs are replaced first, in order, and only then the three built-in placeholders. |
| ClassNames.ParseTemplateClass | test_upload_code.php:1483-1491 | A `{class}` that occurs once, in a text with no other placeholder or search string, becomes the short class name. |
| ClassNames.ParseTemplateNamespace | test_upload_code.php:1483-1491 | A `{namespace}` that occurs once becomes the class's namespace, provided no `<@php` or search string is in the text and no `{class}` is in the result. |
| ClassNames.ParseTemplatePhp | test_upload_code.php:1484-1491 | A `<@php` that occurs once becomes `<?php`, provided no search string is in the text and no other placeholder is in the result. |
| ClassNames.FilePathShape | test_upload_code.php:1531 | `FilePath` lies below the base directory and ends in `.php`, with no backslash after the base. |
| ClassNames.FilePathOfQualified | test_upload_code.php:1531 | For a class `ns\rel` in which `ns\` occurs only in front, and `rel` has no backslash at its ends, the file is `base/` + `rel` with backslashes turned into slashes + `.php`. |
| ClassNames.FilePathOfTwoSegments | test_upload_code.php:1531 | The class `ns\a\b` is written to `base/a/b.php`, for any backslash-free `a` and `b` when `ns\` occurs only in front. |
| ClassNames.JoinPathStamp | test_upload_code.php:1531-1533 | The `basename` hook changes only the last path segment. With the default hook the joined path is the file path itself. |
| ClassNames.StampBasenameSplit | test_upload_code.php:1533 | For any path `dir/rel` not ending in `/`, imploding all exploded parts but the last and appending the stamped base name puts the stamp right in front of the base name, and an empty stamp gives the path back. |
| GeneratorTrait.BuildPath | test_upload_code.php:1516-1534 | The path is empty if and only if the autoloader has no directory for the root namespace, or its first directory is falsy. |
| GeneratorTrait.BuildPathOfKnownNamespace | test_upload_code.php:1518-1533 | With a known directory and the default hook, the path is the class's `.php` file below that directory. |
| Imports.NextSemicolon | test_upload_code.php:1503 | Finds the first `;` at or after a position, or reports that there is none. |
| Imports.ImportAt | test_upload_code.php:1503 | One repetition of the import pattern starts with `use `, is at least six characters long, and ends with `;` at a line end, optionally followed by the newline. |
| Imports.ImportAtExactly | test_upload_code.php:1503 | Both directions: an import starts at `i` if and only if `i` starts a line with `use `, followed by at least one character and no `;` before a `;` that ends the line. The repetition then ends after that `;` and its newline. |
| Imports.RunEnd | test_upload_code.php:1503 | The greedy repetition ends no earlier than its first import and within the text, at a position where no further import starts. |
| Imports.FindImports | test_upload_code.php:1503 | Returns the leftmost position where an import starts, with its run's end. No earlier position starts one, and `None` means no position does. |
| Imports.ImportRunInTemplate | test_upload_code.php:1503-1504 | `ImportRun` finds a run if and only if an import starts somewhere. The trimmed run starts with `use ` and occurs in the template at the run's start. |
| Imports.LexLeTotal | test_upload_code.php:1505 | The `strcmp` order is total. |
| Imports.LexLeTransitive | test_upload_code.php:1505 | The `strcmp` order is transitive. |
| Imports.LexLeAntisymmetric | test_upload_code.php:1505 | Two strings that are each `<=` the other are equal. |
| Imports.SortLines | test_upload_code.php:1505 | After the in-place sort the array is in ascending order and is a permutation of the original lines. |
| Imports.SortedUnique | test_upload_code.php:1505 | Two ascending orderings of the same lines are equal, so the sorted block does not depend on how `sort` proceeds. |
| Imports.BuiltContentUnique | test_upload_code.php:1499-1511 | The built content is determined by the template and the flag. |
| Imports.SortOnlyTouchesRun | test_upload_code.php:1503-1507 | When the run occurs only at its start, the content is the template with that run replaced by the sorted lines. Nothing else changes. |
| Imports.RunLinesRoundTrip | test_upload_code.php:1504-1507 | Imploding the run's exploded lines gives the run back, so the sorted block holds exactly the run's lines, reordered. |
| GeneratorTrait.Generator.BuildContent | test_upload_code.php:1499-1511 | The result is the template, with every occurrence of the import run replaced by the run's lines in ascending order and as a permutation. The template is returned unchanged when sorting is off or no run exists. |
| GeneratorTrait.Generator.GenerateClass | test_upload_code.php:1299-1315 | Stores the parameters. No write happens if and only if the path is empty. Otherwise the write goes to `buildPath(qualifyClassName())`, with the built content of the prepared template (`ClassWritten`). The component, the directory and the flags are left as they were. |
| GeneratorTrait.Generator.GenerateView | test_upload_code.php:1320-1332 | As `GenerateClass`, for a view name used as given (`ViewWritten`). |
| Generators.RestKind | test_upload_code.php:493-501 | A truthy `--restful` resolves to `controller` or `presenter`. A value naming either kind is kept, and a non-string value means `controller`. |
| Generators.ControllerParent | test_upload_code.php:482-511 | A truthy `--bare` selects `CodeIgniter\Controller`, whatever `--restful` says. Otherwise `controller` gives `ResourceController` and `presenter` gives `ResourcePresenter`, both as the class extended and as the `use` statement. With neither option the parent is `BaseController` under the trimmed `APP_NAMESPACE`. |
| Generators.UseStatementNamesParent | test_upload_code.php:485-508 | The `use` statement always ends with `\` followed by the class extended. |
| Generators.ControllerPrepare | test_upload_code.php:480-519 | The parent's `{useStatement}` and `{extends}` are filled in first. `parseTemplate` with no pairs of its own then runs on that text. |
| Generators.SessionRunTable | test_upload_code.php:186-190 | The table is `ci_sessions` unless `t` is stored or set on the command line. A stored non-null `t` is used as is. Otherwise, when `t` is stored as null or `-t` is truthy, the command line's value is used. |
| Generators.SessionRunParams | test_upload_code.php:192 | Argument 0 becomes `_create_{table}_table` for the table `SessionRunTable` gives. No other key is added and every other parameter is kept. |
| Generators.SessionTemplateData | test_upload_code.php:204-209 | A string `t` or `g` option is used as given. Anything else falls back to `ci_sessions` and `default`. |
| Generators.SessionTableAgrees | test_upload_code.php:186-209 | A table given as `-t <name>` names both the class `_create_<name>_table` and the template's table. |
| Generators.SessionDefaults | test_upload_code.php:186-209 | With no `t` or `g` given, the class is `_create_ci_sessions_table` and the template uses `ci_sessions` and `default`. |
| Generators.SessionBareFlagDisagrees | test_upload_code.php:188-209 | A bare `-t` flag names the class `_create_1_table`, but the template keeps `ci_sessions`. |
| Generators.RunSessionMigration | test_upload_code.php:180-212 | Sets the component, the directory and argument 0 and changes no flag. Then it writes the class as `generateClass` does, to the stamped path, with the template rendered from `SessionTemplateData`. |
| Generators.GenerateIn | test_upload_code.php:181-193 | Sets the component and the directory to the given ones, then writes the class as `generateClass` does with the given parameters (`ClassWritten`). |
| Generators.SessionPrepareSteps | test_upload_code.php:200-212 | The session `prepare` has no pairs of its own, so it replaces `<@php`, `{namespace}` and `{class}` and nothing else. |
| Generators.LastBackslash | test_upload_code.php:611 | Finds the last backslash, or reports that the name has none. |
| Generators.CellNamespace | test_upload_code.php:611 | For a name with a backslash, the result is its prefix through the last backslash. For a name without one, it is the first character, as PHP's `false + 1` gives. |
| Generators.StripCellSuffix | test_upload_code.php:610 | The view name changes if and only if it matches the `_cell` pattern. It then loses exactly its last five characters, which spell `_cell` in some case. |
| Generators.StripCellSuffixOfCellName | test_upload_code.php:610 | `name_cell` becomes `name` for every name the pattern accepts. |
| Generators.CellViewInClassNamespace | test_upload_code.php:608-613 | `CellViewName` places the view of the qualified cell class `ns\Short` in `ns\`, named by the stripped view base. |
| Generators.CellSuffixForced | test_upload_code.php:598 | After the cell generator's merge, `suffix` reads as `true`. |
| Generators.RunCell | test_upload_code.php:593-616 | Sets the component and directory, forces `suffix` and changes no flag. Then it does what `GenerateCell` states, with one answer for the class-name prompt and another for the view-name prompt. |
| Generators.GenerateCellIn | test_upload_code.php:595-613 | Sets the component and the directory to the given ones and the parameters to the merged ones. Then it writes the class and the view as `CellWritten` states, the view named from the second prompt's answer. |
| Generators.GenerateCell | test_upload_code.php:601-613 | With the component and directory already set, and leaving them so: writes the class as `generateClass` does. It then asks `qualifyClassName` again, with the view prompt's answer, and writes the view `CellViewName` derives from that name, as `generateView` does. Each write happens only when its path is non-empty (`CellWritten`). |
| Generators.CellViewOfNamedClass | test_upload_code.php:601-613 | When the name came with the command, neither prompt is shown. The second `qualifyClassName` then gives the class that was written, whatever the answers. |
| ResponseTrait.RespondStatus | test_upload_code.php:705-715 | An explicit nonzero status is always kept. No data and no status gives 404, and no data with a status keeps that status. Data with no status, or with status 0, gives 200. Data never gets status 0. |
| ResponseTrait.RespondBody | test_upload_code.php:717-727 | There is no body if and only if there is no data. String data is sent verbatim as the plain body. Only non-string data goes to JSON or XML, exactly when the format is `json` or `xml`. Under any other format it is sent as the formatter's text in a plain body. |
| ResponseTrait.FailEnvelope | test_upload_code.php:741-749 | `status` is the given status. `error` is the code if one is given, and the status otherwise. `messages` is the array given, or `['error' => message]`. |
| ResponseTrait.FailStatusAgrees | test_upload_code.php:739-752 | A nonzero status is both the response status and the envelope's `status`. Status 0 is sent as 200. |
| ResponseTrait.DefaultRespondCodes | test_upload_code.php:648-652 | The default table gives created 201, deleted 200, updated 200 and no_content 204. |
| ResponseTrait.DefaultFailCodes | test_upload_code.php:648-677 | The default table gives the `fail*` helpers' keys their standard codes, e.g. unauthorized 401, resource_not_found 404, too_many_requests 429, server_error 500. |
| ResponseTrait.DefaultHelperStatuses | test_upload_code.php:765-803 | With the default table, `respondCreated` sends 201 whatever the data, `respondDeleted` and `respondUpdated` 200, and `respondNoContent` 204. |
| ResponseTrait.FailHelperKeysAreErrors | test_upload_code.php:812-904 | Every key a `fail*` helper uses is in the default table with a code from 400 to 599. |
| ResponseTrait.DefaultFailStatuses | test_upload_code.php:812-904 | With the default table each `fail*` helper sends its own error code, at least 400, both as the status and as the envelope's `status`. |
| ResponseTrait.FormatNameCaseInsensitive | test_upload_code.php:969-974 | For data that is neither null nor a string, after `setResponseFormat` any spelling of `json` selects the JSON body and any spelling of `xml` the XML body. Every other name gives the formatter's text as a plain body. |
| ResponseTrait.Responder.constructor | test_upload_code.php:648-686 | A responder starts with format `json` and the given table of codes. |
| ResponseTrait.Responder.Format | test_upload_code.php:918-962 | String data is returned as is and switches the format to `html`. Other data goes through the formatter and leaves the format alone. |
| ResponseTrait.Responder.Respond | test_upload_code.php:703-728 | The response has `RespondBody` for the format in force, `RespondStatus` and the message. The format becomes `html` exactly for string data. |
| ResponseTrait.Responder.Fail | test_upload_code.php:739-752 | Responds with the envelope and the given status, 0 becoming 200. The format does not change. |
| ResponseTrait.Responder.RespondWith | test_upload_code.php:765-803 | A `respond*` helper responds with its `$codes` entry, or with a null status when the table lacks the key. |
| ResponseTrait.Responder.RespondCreated | test_upload_code.php:765-768 | Responds with the `created` entry. |
| ResponseTrait.Responder.RespondDeleted | test_upload_code.php:777-780 | Responds with the `deleted` entry. |
| ResponseTrait.Responder.RespondUpdated | test_upload_code.php:789-792 | Responds with the `updated` entry. |
| ResponseTrait.Responder.RespondNoContent | test_upload_code.php:800-803 | Sends no body, with the `no_content` entry, or 404 when the table lacks it. |
| ResponseTrait.Responder.FailWith | test_upload_code.php:812-904 | A `fail*` helper fails with its `$codes` entry. The entry must exist, since `fail` takes a non-null integer. |
| ResponseTrait.Responder.FailUnauthorized | test_upload_code.php:812-815 | Fails with the description and the `unauthorized` entry. |
| ResponseTrait.Responder.FailForbidden | test_upload_code.php:823-826 | Fails with the description and the `forbidden` entry. |
| ResponseTrait.Responder.FailNotFound | test_upload_code.php:833-836 | Fails with the description and the `resource_not_found` entry. |
| ResponseTrait.Responder.FailValidationErrors | test_upload_code.php:845-860 | Fails with the message or messages and the `invalid_data` entry. |
| ResponseTrait.Responder.FailResourceExists | test_upload_code.php:867-870 | Fails with the description and the `resource_exists` entry. |
| ResponseTrait.Responder.FailResourceGone | test_upload_code.php:879-882 | Fails with the description and the `resource_gone` entry. |
| ResponseTrait.Responder.FailTooManyRequests | test_upload_code.php:889-892 | Fails with the description and the `too_many_requests` entry. |
| ResponseTrait.Responder.FailServerError | test_upload_code.php:901-904 | Fails with the description and the `server_error` entry. |
| ResponseTrait.Responder.SetResponseFormat | test_upload_code.php:969-974 | The format becomes the lower-cased name, or "" for null. Returns the responder itself. |

## Left out

- Console and filesystem I/O in `generateFile` is not modelled:
  - `is_file`, `mkdir`, `write_file`;
  - the force/overwrite messages;
  - the confirmation prompt for the `CodeIgniter` namespace;
  - every `CLI::write`, `CLI::error` and `CLI::newLine`.
  `GenerateClass` and `GenerateView` return the write instead of performing it.
- `renderTemplate` and `view()` belong to the template engine. The rendered text is a parameter: a generator's `prepare`, or `render` over the template data. The `$template`, `$name` and `$classNameLang` fields, which only feed the engine and the prompt text, are not modelled.
- The autoloader lookup and `realpath` in `buildPath` are replaced by the directories the autoloader would return, as a parameter. The base path is used as returned. `DIRECTORY_SEPARATOR` is `/`.
- The inflector helpers `singular`, `pascalize`, `decamelize` and `class_basename` are uninterpreted parameters. `CLI::getOption`, `CLI::getSegment(2)` and `CLI::prompt` are parameters too.
- The session-migration `basename` hook (`gmdate` with the configured timestamp format) is the `stamp` parameter. The configured `sessionMatchIP` is the `matchIP` parameter.
- `format`'s formatter machinery is a parameter `formatter` from data to text. That covers `Services::format`, content negotiation, the content-type header, the JSON round trip and formatter caching. For null data its result is discarded, as in the source.
- `setStatusCode` rejects status codes outside the HTTP range with an exception. The model reports whatever status `respond` computes, such as a 0 given with null data.
- `showHelp`, `showError`, `__get`, `__isset` and `CloneableCookieInterface` are console output, reflection and a signature-only interface.
- The seeder and entity generators' `run` are not part of this model. Nor is the deprecated `execute`; it is modelled by calling `GenerateClass`.
- ClassNames.FindMatch: `$` also matches before a final newline in PCRE; the model anchors at the end of the string only.
- ClassNames.FindMatch: the component is inserted into the pattern unescaped. The model treats it literally, which agrees for the components used (`Controller`, `Migration`, `Cell`).
- `preg_match` and `preg_replace` failing (returning false or null) is not modelled.
- Strings are sequences of one-byte characters. `ucfirst`, `strtolower` and case-insensitive matching are ASCII only.
- Imports.SortLines: PHP 8's `sort` compares two numeric strings numerically, and the model compares every pair with `strcmp`. A run's lines that start with `use ` are never numeric. But `[^;]+` lets one import span several lines, and a continuation line such as `  12` can be numeric. Two such lines are ordered by `strcmp` in the model and by value in PHP.
- ResponseTrait.Responder.FailWith: a `fail*` helper whose key is missing from `$codes` passes null to `fail`'s `int $status` and raises a `TypeError`. The model requires the key to be present, on `FailWith` and on each `fail*` helper, instead of modelling the error.
- BaseCommand.SetPad: `indent` is a `nat`. A negative indent, for which `str_repeat` raises a `ValueError`, is not modelled.
- ClassNames.ParseTemplateSteps: the placeholder lemmas assume as many replacements as search strings, as every caller passes. With fewer, PHP's `str_replace` shifts the built-in replacements onto the caller's last search strings; `ParseTemplate` models that, but no lemma states it.
- Generators.RunCell: `array_merge` renumbers integer keys. The model only sets `suffix`, which agrees when the positional arguments are numbered from 0, as the command line numbers them.
- BaseCommand.GetPad: takes the keys as strings. An integer key of the PHP array counts with the length of its decimal form, which the caller supplies.
- GeneratorTrait.GetOption: a numeric option name would address an integer key in PHP. Option names are never numeric here, so names and positions are kept apart.
- The fluent `return $this` of the setters is returned as a reference to the same object. The object's other fields are not compared.
