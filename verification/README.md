# snippet2readme: a verified model of the README generator's core

Snippet2README turns a short project description into a full README by asking a
language model (OpenAI or a local Ollama server) to write one. Around that call,
`ReadmeGenerator` in `snippet2readme.py` does three deterministic things, and this
project models and proves properties of each:

- **Construction** (`__init__`, module `Configuration`): it resolves the provider,
  the model name and the OpenAI key from the arguments, the environment and the
  defaults. It either builds a configuration or refuses with one of two
  `ValueError`s.
- **Directory classification** (`scan_project_files`, module `Scanner`): one pass
  over the directory's entries. It collects the file names, three manifest flags
  (`requirements.txt`, `package.json`, `Dockerfile`), a tests flag and a primary
  language. The pass is modelled as a left fold, `Scan`, over a sequence of
  `Entry(name, isFile)`.
- **Prompt assembly and reply clean-up** (`generate_readme`, modules
  `PromptBuilder` and `Generator`):
  - the language-precedence rule;
  - the four-line header;
  - the optional "Project Files Found" line (at most ten names joined by `", "`);
  - the annotation lines;
  - the request sent to the provider;
  - the whitespace strip of the reply, or the wrapped error.

Module `Strings` gives Python's string operations their exact meaning here:
- `str.strip`, with Python's set of whitespace characters;
- ASCII `str.lower` and the substring test `in`;
- `Path.match("*.ext")`, as a case-sensitive suffix test;
- `str.join` and `str.split`.

`Wrappers` holds `Option` (Python's `None`) and `Result` (a value or what was raised).

The environment is an explicit `map<string, string>`. It stands for `os.environ`
after `load_dotenv()`. The directory is its listing, a `seq<Entry>`. The language
model is a parameter `complete: ChatCall -> Result<string, string>`: it maps the
request to the reply text, or to the text of the exception it raised.

The scan, the prompt and the strip each have a reference definition and a lemma connecting the two:
- `Scan` is compared with reference definitions stated over listing positions
  (`FileNames`, `HasFileNamed`, `HasTestFile`, `IsLastManifest`,
  `IsFirstSource`).
- The concatenated prompt is compared with its list of lines, and is read back by
  splitting (`PromptLines`, `ReadListedFiles`).
- `Strip` is compared with the declarative `IsStripOf`.

### Where the code and its documentation differ

The model follows the code where it departs from the constructor's docstring:
- **The bare constructor's model.** `ReadmeGenerator()` has the default argument
  `model="gpt-4o-mini"`. That argument is truthy, so the per-provider default
  (`llama3` for Ollama) is never used. A bare constructor therefore selects Ollama
  with the model `gpt-4o-mini`, despite the constructor's docstring. The same goes
  for the environment: `AI_PROVIDER` and `MODEL_NAME` are read only when a falsy
  argument is passed (`Configuration.BareConstructor`).

## Model

| member | source | states |
|---|---|---|
| `Configuration.Init` | snippet2readme.py:20-46 | construction succeeds iff the resolved provider is `ollama`, or is `openai` with a non-empty key from the argument or the environment. On success the provider and model are the resolved ones. An OpenAI configuration holds a non-empty key: the key argument when it is truthy, otherwise the value of `OPENAI_API_KEY`. An Ollama configuration holds no key. On failure the error is the missing key iff the provider is `openai`, and otherwise names the unsupported provider |
| `Configuration.BareConstructor` | snippet2readme.py:20-31 | with all arguments at their defaults, construction yields Ollama with model `gpt-4o-mini`, whatever the environment holds |
| `Configuration.ExplicitArgumentsIgnoreEnvironment` | snippet2readme.py:30-34 | with truthy provider and model arguments (and a key for OpenAI), the environment has no influence on construction |
| `Configuration.ReadsOnlyThreeVariables` | snippet2readme.py:30-34 | construction reads no environment variable besides `AI_PROVIDER`, `MODEL_NAME` and `OPENAI_API_KEY`: environments that agree on those three give the same outcome |
| `Configuration.RefusalMessage` | snippet2readme.py:33-44 | a refused construction raises the missing-key message when the resolved provider is `openai`, and otherwise `Unsupported provider: <name>. Use 'openai' or 'ollama'.` naming the resolved provider |
| `Configuration.ErrorMessageIdentifiesError` | snippet2readme.py:35-44 | the message determines the refusal: the missing-key message is no unsupported-provider message, and two unsupported-provider messages are equal only for the same provider name |
| `Configuration.OpenAIWithoutKeyFails` | snippet2readme.py:33-39 | provider `openai` with no non-empty key from the argument or the environment fails with the missing-key error |
| `Scanner.Scan` | snippet2readme.py:90-137 | the primary language of any listing is one of the seven table labels, `JavaScript/TypeScript` or `Unknown` |
| `Scanner.DetectExtension` | snippet2readme.py:130-132 | the table pass leaves the language as it was or sets it to a label of the table |
| `Scanner.DetectExtensionKeeps` | snippet2readme.py:130-132 | once the language is other than `Unknown`, no pattern of the table changes it |
| `Scanner.DetectExtensionFirst` | snippet2readme.py:130-132 | starting from `Unknown`, the table pass yields the label of the first matching pattern, and stays `Unknown` when none matches |
| `Scanner.MatchingPatternDecides` | snippet2readme.py:101-109 | no name ends in two of the table's extensions, so a matching pattern alone decides the label, whatever the table's order |
| `Scanner.ScanFiles` | snippet2readme.py:113-115 | `files` is exactly the names of the file entries, in listing order |
| `Scanner.ScanFlags` | snippet2readme.py:118-127 | each manifest flag is true iff some file has exactly that name; the tests flag is true iff some file other than the three manifests contains `test` once lower-cased |
| `Scanner.ScanTests` | snippet2readme.py:118-127 | the tests flag is true iff any file at all contains `test` once lower-cased: the three manifest names do not, so the `elif` chain hides no test file |
| `Scanner.IsTestNameLowers` | snippet2readme.py:126 | the lowering substring search agrees with `"test" in name.lower()` |
| `Scanner.ScanLanguage` | snippet2readme.py:91-132 | the language is set by the last `requirements.txt` or `package.json` when there is one; otherwise by the first file whose suffix is in the table; otherwise it is `Unknown` |
| `Scanner.LastManifestOf` | snippet2readme.py:118-123 | a listing holding a manifest has a last manifest, so the first case of the language rule always applies to it |
| `Scanner.FirstSourceOf` | snippet2readme.py:130-132 | a listing holding a source file has a first one, so the second case of the language rule always applies to it |
| `Scanner.ScanIgnoresNonFiles` | snippet2readme.py:113-114 | inserting a non-file entry anywhere in the listing changes no field of the result |
| `PromptBuilder.FlagLinesMatchFlags` | snippet2readme.py:181-188 | there is one annotation line per true flag and none for a false one, in the order requirements, package.json, Docker, tests |
| `PromptBuilder.PromptIsJoinedLines` | snippet2readme.py:170-188 | the concatenated prompt is its reference lines joined by line breaks: seven header lines, then, with files, the file line and the annotation lines |
| `PromptBuilder.PromptLinesRoundTrip` | snippet2readme.py:170-188 | when the fields and listed names hold no line break, splitting the prompt at line breaks gives back exactly its reference lines |
| `PromptBuilder.ListedFilesRoundTrip` | snippet2readme.py:163-180 | when the fields and listed names hold no line break and the listed names no comma, the file line appears iff a scan was requested and found files, and it lists exactly the first `min(10, n)` file names of the listing |
| `PromptBuilder.AnnotationLinesFollow` | snippet2readme.py:179-188 | when the fields and listed names hold no line break, the lines after the file line are exactly the annotation lines of the scan's flags |
| `PromptBuilder.HeaderComesFirst` | snippet2readme.py:163-176 | when the fields and listed names hold no line break, the name, description and license lines are the request's fields. The language line shows the explicit language when one is non-empty, the scanned language when none was given and it is known, and `Not specified` otherwise |
| `PromptBuilder.ScanOnlyAppends` | snippet2readme.py:163-188 | with an explicit language, the prompt built without a scan is a prefix of the one built with it |
| `PromptBuilder.NoScanNoFileSection` | snippet2readme.py:163-176 | without a scan, the prompt is the header lines alone |
| `PromptBuilder.DefaultRequest` | snippet2readme.py:139-188 | with `language`, `license_type` and `scan_files` left at their defaults (`None`, `"MIT"`, `True`), the prompt names the scanned language (or `Not specified` when the scan found none) and the MIT license, and has a file line exactly when the directory holds files |
| `Generator.ProviderSeesPromptLines` | snippet2readme.py:194-212 | when the fields and listed names hold no line break, the provider receives two messages: the fixed system prompt, then a user message whose lines are exactly the prompt's reference lines |
| `Generator.GenerateReadme` | snippet2readme.py:190-225 | the result is a success iff the provider replied. On success it is the reply stripped of surrounding whitespace; otherwise it is the raised text after `Failed to generate README: ` |
| `Generator.GeneratedIsTrimmed` | snippet2readme.py:219-222 | a generated README neither begins nor ends with whitespace, and stripping it again changes nothing |
| `Generator.TrimmedReplyIsKept` | snippet2readme.py:219-222 | a reply without surrounding whitespace is returned unchanged |
| `Strings.Strip` | snippet2readme.py:220 | the result is the input with a whitespace prefix and a whitespace suffix cut off, and it neither begins nor ends with whitespace |
| `Strings.StripCanonical` | snippet2readme.py:220 | any string that is the input minus a whitespace prefix and a whitespace suffix, and that is itself trimmed, equals `Strip` of the input |
| `Strings.StripIdempotent` | snippet2readme.py:220 | stripping twice is stripping once |
| `Strings.SplitJoin` | snippet2readme.py:180 | joining non-empty lists of parts that avoid the separator's first character and splitting again gives back the parts |

## Left out

- The provider calls (`OpenAI` chat completions and `ollama.chat`, snippet2readme.py:194-217) are network clients. The model takes the reply, or the text of what was raised, from the `complete` parameter. A reply with no content (`None`, on which `strip` raises) is one of those failures.
- The construction of the OpenAI client object (snippet2readme.py:40) is a foreign call. The model keeps only the key it is given.
- `load_dotenv` and the process environment are modelled as one explicit map.
- The `directory` argument of `generate_readme` (default `"."`) names what to list. Directory I/O (`iterdir`, `is_file`) is replaced by an input listing, `Request.listing`. The listing order, which the platform decides, is taken as given.
- When listing the directory raises, the `except` branch of the scan (snippet2readme.py:134-137) prints a warning and returns the fields filled in before the failure. It is an I/O failure path, so it is left out.
- `Path.match` is modelled as a case-sensitive suffix test. Case-insensitive matching on platforms that use it is not modelled.
- `str.lower` is modelled for ASCII letters only. Nothing in the core depends on other letters, because no non-ASCII character lowers to `t`, `e` or `s`.
- The progress and warning `print` calls are console output only.
- `save_readme` is a plain file write.
- `interactive_mode` and `main` are the terminal UI, argument parsing and process exit.
- `config.py` holds constants that the generator does not import.
- `example_usage.py` is a usage demonstration.
- The system prompt (snippet2readme.py:48-78) is kept verbatim as the constant `Generator.SystemPrompt`. Nothing is proved about its wording.
- `PromptBuilder.PromptLinesRoundTrip` and the lemmas built on it require the request fields and the listed file names to hold no line break. A line break inside a field or a name adds a line to the prompt, so splitting the prompt at line breaks no longer gives one line per field. For such requests the prompt is still built as `generate_readme` builds it (`PromptBuilder.PromptIsJoinedLines` holds for every request); only the reading back by lines is not promised.
- `PromptBuilder.ListedFilesRoundTrip`: stated only when the fields and listed names hold no line break, as above, and the listed names hold no comma, because a comma in a name makes the `", "`-joined list ambiguous to read back.
- `PromptBuilder.AnnotationLinesFollow`: stated only when the fields and listed names hold no line break, because it reads the annotations back by splitting the prompt into lines.
- `PromptBuilder.HeaderComesFirst`: stated only when the fields and listed names hold no line break, because it reads the header back by splitting the prompt into lines; `PromptBuilder.PromptIsJoinedLines` fixes the text for every request.
- `Generator.ProviderSeesPromptLines`: stated only when the fields and listed names hold no line break, for the same reason.
