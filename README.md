# docker_analyzer — a Dafny model of the loaders, the scanner adapter, the correlation and the summary

docker_analyzer inventories a Docker image and correlates the inventory with a local vulnerability store:

- **The two loaders fill the store.** The CVE-feed loader (`BD/carga_inicial.py`) reads downloaded NVD documents and upserts one `vulnerabilities` row per CVE. It upserts one `products` row per vulnerable CPE identity and links the two in `vulnerability_product_map`, committing or rolling back each document on its own. The OSV loader (`BD/OSV.py`) links CVEs already stored to synthetic identities, one per affected version of a package in one of seven language ecosystems, committing or rolling back each advisory on its own.
- **The scanner adapter** (`src/adapters/syft_adapter.py`) turns the scanner's JSON into packages and unowned binaries. It caches them per image.
- **The correlation adapter** (`src/adapters/postgres_cve_adapter.py`) joins the packages with the store on (product, cleaned version). It joins the operating system on (vendor, product, version).
- **The use case** (`src/core/use_cases.py`) builds the asset report and the vulnerability report. The package matches are grouped by name and version.
- **The summary writer** (`src/adapters/summary_adapter.py`) counts the matches by normalised severity.

The project has one module per core file, each in its own `.dfy` file:

- `nvd.dfy`, `osv.dfy`, `syft.dfy`, `cve_adapter.dfy`, `use_cases.dfy` and `summary.dfy` model the six core files.
- `store.dfy` holds the three relations and the loaders' transaction, as the class `Store.VulnStore`.
- `domain.dfy` holds the records of `src/core/domain.py`.
- `text.dfy` holds the Python string operations the code relies on: `split`, `split()`, `lower` and `upper`.
- `wrappers.dfy` holds `Option` and `Result`. A `Result` carries the Python exception a step raises.
- `end_to_end.dfy` holds one image analysed against one stored CVE.

The code is modelled in the form it has:

- The loaders' loops, the scanner adapter's object and its caches, the grouping loop and the counting loop are methods with loop invariants. Each is proved against a function that states its result or its new state.
- The parsing and normalisation helpers are functions with lemmas.
- The database is the object `VulnStore`. It holds the three relations, the last committed state and the two id sequences.
- The correlation queries are set comprehensions over a snapshot of it.

## Model

| member | source | states |
|---|---|---|
| Text.IndexOf | BD/OSV.py:99 | the position of the first occurrence: it holds the character and nothing before it does |
| Text.SplitOnce | BD/OSV.py:99 | `split(c, 1)`: the two parts joined with `c` give the string back, and the first part holds no `c` |
| Text.Split | BD/carga_inicial.py:68 | `split(':')` gives at least one part, no part holds the separator, and joining the parts gives the string back |
| Text.SplitJoin | BD/carga_inicial.py:68 | splitting a join of separator-free parts gives exactly those parts |
| Text.SplitAppend | BD/carga_inicial.py:68 | splitting `a + sep + b` gives the parts of `a` followed by the parts of `b` |
| Text.Words | src/adapters/syft_adapter.py:113 | `split()` gives only non-empty words free of whitespace |
| Text.WordsEmpty | src/adapters/syft_adapter.py:113 | `split()` is empty exactly when the string is empty or all whitespace, the case in which `[0]` raises |
| Text.FirstWord | src/adapters/postgres_cve_adapter.py:151 | `split()[0]` is the run of non-whitespace that starts at the first non-whitespace character |
| Text.Lower | src/adapters/syft_adapter.py:113 | `lower()` keeps the length and lower-cases each character |
| Text.Upper | src/adapters/summary_adapter.py:20 | `upper()` keeps the length and upper-cases each character |
| Text.UpperIdempotent | src/adapters/summary_adapter.py:20 | upper-casing twice is upper-casing once |
| Store.VulnStore.CveRowId | BD/OSV.py:133-136 | the lookup by `cve_id` finds a row exactly when the CVE is stored; its id is at least 1 and belongs to no other CVE |
| Store.VulnStore.UpsertVulnerability | BD/carga_inicial.py:110-122 | the row is inserted under the next sequence value, or keeps its id on a conflict; all five attributes are overwritten and nothing else changes |
| Store.VulnStore.UpsertProduct | BD/OSV.py:153-162 | a new ten-column tuple gets the next id, an existing one keeps its id; nothing else changes |
| Store.VulnStore.InsertLink | BD/OSV.py:164-169 | the link is added, and a link already present has no effect |
| Store.VulnStore.LinkIdentity | BD/carga_inicial.py:136-149 | after the upsert and the insert, the identity has a row and the CVE's row is linked to it; vulnerabilities and committed state are untouched |
| Store.VulnStore.Commit | BD/carga_inicial.py:266 | the open writes become the committed state |
| Store.VulnStore.Rollback | BD/carga_inicial.py:268 | the relations return to the last committed state; the id sequences are not rewound |
| Store.VulnStore.TruncateAndCommit | BD/carga_inicial.py:49-59 | the three relations are empty and both sequences restart at 1 |
| Nvd.ParseCpeStringFields | BD/carga_inicial.py:67-82 | field k of the parsed tuple is colon segment k + 2; it is NULL when that segment is missing or `*` |
| Nvd.ParseCpeStringClean | BD/carga_inicial.py:67-82 | no present field is `*` or holds a colon, and a string of at most two segments gives an all-NULL tuple |
| Nvd.ParseFormatCpe | BD/carga_inicial.py:67-82 | parsing the formatted string of any tuple whose fields need no escaping gives the tuple back |
| Nvd.TrailingSegmentsIgnored | BD/carga_inicial.py:69-81 | segments after the twelfth never change the parsed tuple |
| Nvd.OpensslCpeExample | BD/carga_inicial.py:67-82 | `cpe:2.3:a:openssl:openssl:1.1.1:*:*:*:*:*:*:*` parses to the openssl 1.1.1 application identity with every qualifier NULL |
| Nvd.FirstEnglish | BD/carga_inicial.py:96 | with complete descriptions it returns the first English value, or `""` when none is English |
| Nvd.FirstEnglishFails | BD/carga_inicial.py:96 | the generator raises exactly when a description up to the first English one lacks `lang`, or that English one lacks `value` |
| Nvd.FirstEnglishValue | BD/carga_inicial.py:96 | whenever the generator does not raise, it yields the first English value, or `""` when none is English, even with incomplete later descriptions |
| Nvd.SelectDescription | BD/carga_inicial.py:95-97 | the first English description; the first one of any language when that is empty; `""` without descriptions |
| Nvd.SelectDescriptionFails | BD/carga_inicial.py:95-97 | the selection raises exactly when the generator does, or when it falls back, with no English value or an empty one, to a first description without `value` |
| Nvd.FirstMetric | BD/carga_inicial.py:102-107 | score and severity of the first metric when the key is present, both NULL when absent; an empty list or a missing `cvssData` raises |
| Nvd.ExtractCve | BD/carga_inicial.py:92-107 | an item yields its row values exactly when `cve`, `id`, the description and both metrics can be read, and then carries those values |
| Nvd.GatherMeaning | BD/carga_inicial.py:127-131 | reading the entries succeeds exactly when every vulnerable entry has `criteria`, and collects exactly those strings |
| Nvd.CollectVulnerableCriteria | BD/carga_inicial.py:125-131 | the three nested loops raise exactly when a vulnerable entry lacks `criteria`, and otherwise give the set of vulnerable criteria |
| Nvd.WriteIdentity | BD/carga_inicial.py:134-149 | one CPE string's identity gets a row and is linked to the CVE's row |
| Nvd.WriteCriteria | BD/carga_inicial.py:133-151 | for every set iteration order, all the criteria's identities get rows linked to the CVE's row, and nothing else is written |
| Nvd.LoadItem | BD/carga_inicial.py:91-151 | one item raises exactly when its record or its criteria cannot be read, and otherwise writes its row, identities and links, and nothing else |
| Nvd.LoadJsonToDb | BD/carga_inicial.py:84-152 | it succeeds exactly when the file is JSON and every item can be processed, returns the item count, and leaves each CVE with the values of its last item, every identity stored and every pair linked |
| Nvd.LoadFile | BD/carga_inicial.py:262-269 | a document that loads is committed with those writes; one that raises leaves the tables exactly as they were |
| Nvd.AppliedCompose | BD/carga_inicial.py:262-269 | two rounds of writes one after the other leave the tables as one round of both: the later values win, rows keep their ids, and the links of both are present |
| Nvd.AppliedFromEmpty | BD/carga_inicial.py:249-269 | writes applied to empty tables leave exactly one row per CVE written, holding its last item's values, one row per identity written, and exactly the links of the written pairs |
| Nvd.ResetDatabase | BD/carga_inicial.py:249-251 | a full run starts from three empty, committed relations |
| Nvd.JsonEntries | BD/carga_inicial.py:253 | exactly the directory entries whose names end in `.json` |
| Nvd.FirstDigitRun | BD/carga_inicial.py:254 | `re.search(r'\d+', name)` is absent exactly when the name has no digit, and is otherwise the maximal digit run at the first digit |
| Nvd.SortKeyNoDigits | BD/carga_inicial.py:254 | a name without digits has sort key 0 |
| Nvd.SortBy | BD/carga_inicial.py:253-254 | `sorted` returns a permutation of its input in non-decreasing key order |
| Nvd.LoadOrderSpec | BD/carga_inicial.py:253-254 | the load order holds exactly the `.json` entries, as a permutation, in non-decreasing order of their number |
| Nvd.LoadFiles | BD/carga_inicial.py:262-269 | the loop goes on after a failed document; afterwards the tables are those of before with the writes of the documents that loaded applied in order, rows, identities and links alike, and nothing of a failed document |
| Nvd.LoadDirectory | BD/carga_inicial.py:253-269 | no `.json` entry stops the run; otherwise the sorted documents are loaded, with the same result as the file loop |
| Nvd.RunNvdLoad | BD/carga_inicial.py:231-269 | the usage and no-update cases change nothing; otherwise the tables are the writes of the documents that loaded applied to empty tables (full mode) or to the tables before (incremental mode), so that after a full reload no row or link survives that no loaded document wrote |
| Osv.ParsePackageIdentity | BD/OSV.py:88-131 | Maven names split at the first colon, scoped npm and Packagist names at the first slash, with the parts rejoining to the name; every other name is vendor and product both |
| Osv.SplitAt | BD/OSV.py:96-114 | a name with no separator before the first one splits exactly there |
| Osv.ParsePackageIdentityExamples | BD/OSV.py:97-109 | the examples of the source's comments: `org.apache:commons-lang3`, `@angular/core`, `laravel/framework`, `react` |
| Osv.JsonFiles | BD/OSV.py:176 | the contents of exactly the entries named `*.json` |
| Osv.FirstCve | BD/OSV.py:191-194 | the first alias starting with `CVE-`, absent exactly when no alias does |
| Osv.ResolveCve | BD/OSV.py:187-194 | a missing id raises `KeyError`; a CVE id is used as it is; otherwise the first CVE alias; no code exactly when neither exists |
| Osv.ResolveCveCode | BD/OSV.py:187-194 | the loop with `break` computes `ResolveCve` |
| Osv.RecordIdentitiesMeaning | BD/OSV.py:208-227 | an identity is written exactly when some entry of this ecosystem lists its version, and it carries that entry's parsed vendor and product |
| Osv.RecordIdentitiesShape | BD/OSV.py:138-151 | every OSV identity is an application tagged with the ecosystem's `target_hw`, every other qualifier NULL |
| Osv.WriteVersions | BD/OSV.py:219-227 | every listed version's identity gets a row linked to the CVE's row |
| Osv.WriteAffected | BD/OSV.py:208-227 | exactly the identities of the entries of this ecosystem that list versions are written and linked |
| Osv.FileCve | BD/OSV.py:186-205 | an advisory is linked only to a stored CVE whose code starts with `CVE-` |
| Osv.FileSkipped | BD/OSV.py:196-204 | an advisory without a stored CVE writes nothing |
| Osv.WriteFile | BD/OSV.py:208-229 | an advisory's writes are committed together |
| Osv.LookupCve | BD/OSV.py:182-205 | a target is found exactly when the advisory resolves to a stored, non-zero id; only an id found is cached; the tables do not change |
| Osv.ProcessFile | BD/OSV.py:182-232 | one advisory links its identities to its stored CVE, or writes nothing; either way the store is settled afterwards |
| Osv.ProcessEcosystem | BD/OSV.py:171-236 | the rows and links written are exactly those of the advisories linked to stored CVEs; no vulnerability row changes; the cache holds exactly the CVEs found, each with its id |
| Osv.LoadEcosystems | BD/OSV.py:243-246 | the ecosystems whose download succeeded are processed in order and the others skipped |
| Osv.RunOsvLoad | BD/OSV.py:240-250 | the OSV load over the seven ecosystems of the table writes exactly what their advisories link |
| CveAdapter.ConnectionConfigured | src/adapters/postgres_cve_adapter.py:12-28 | the lookups' guard `not self.db_conn_string` fails exactly when `DB_NAME`, `DB_USER` and `DB_PASS` are all set and non-empty, and a built string starts with `postgresql://` |
| CveAdapter.ConnectionStringDefaults | src/adapters/postgres_cve_adapter.py:14-24 | with `DB_HOST` and `DB_PORT` unset, the string uses `localhost` and `5432` |
| CveAdapter.MissingVariableUnconfigured | src/adapters/postgres_cve_adapter.py:20-22 | an unset or empty `DB_NAME`, `DB_USER` or `DB_PASS` gives no connection string |
| CveAdapter.CleanVersion | src/adapters/postgres_cve_adapter.py:76 | the cleaned version is the prefix before the first `-` or `+` |
| CveAdapter.CleanVersionNoSeparator | src/adapters/postgres_cve_adapter.py:76 | a version without `-` or `+` is unchanged |
| CveAdapter.CleanVersionIdempotent | src/adapters/postgres_cve_adapter.py:76 | cleaning twice is cleaning once |
| CveAdapter.CleanVersionAt | src/adapters/postgres_cve_adapter.py:76 | a version is cut at its first separator whatever follows it |
| CveAdapter.CleanVersionExample | src/adapters/postgres_cve_adapter.py:75 | `1.0.1t-1+deb8u6` cleans to `1.0.1t` |
| CveAdapter.PackageKeysIgnoreVendor | src/adapters/postgres_cve_adapter.py:82 | the lookup keys depend on product and version only |
| CveAdapter.PackageKeysDuplicate | src/adapters/postgres_cve_adapter.py:84 | a repeated package adds no key |
| CveAdapter.PackageRowsSound | src/adapters/postgres_cve_adapter.py:98-112 | every package row is a stored link to an identity with some package's product and cleaned version |
| CveAdapter.PackageRowsComplete | src/adapters/postgres_cve_adapter.py:98-112 | every stored link to such an identity is a row, whatever its vendor |
| CveAdapter.UnmatchedPackage | src/adapters/postgres_cve_adapter.py:98-112 | a package no identity matches adds no row |
| CveAdapter.FetchRows | src/adapters/postgres_cve_adapter.py:128-136 | one `Vulnerability` per row, each row once, in any order |
| CveAdapter.FindPackageVulnerabilities | src/adapters/postgres_cve_adapter.py:59-142 | empty without packages, without the three database variables or without a reachable database; otherwise exactly one match per row of the join |
| CveAdapter.OsIdentity | src/adapters/postgres_cve_adapter.py:151-153 | it succeeds exactly when the name and the version each have a word; vendor and product are the first word of the lower-cased name, the version is the first word of the version |
| CveAdapter.OsIdentityAt | src/adapters/postgres_cve_adapter.py:151-153 | a name and a version that each start with a word followed by whitespace give those words |
| CveAdapter.OsIdentityExample | src/adapters/postgres_cve_adapter.py:151-153 | `Debian GNU/Linux` with `8 (jessie)` gives `debian`, `debian`, `8` |
| CveAdapter.OsRowsExact | src/adapters/postgres_cve_adapter.py:157-170 | a row is exactly a stored link to an identity with the three given values |
| CveAdapter.FindOsVulnerabilities | src/adapters/postgres_cve_adapter.py:144-207 | no lookup without the three database variables or for OS `unknown`; raises exactly when the identity does; otherwise one match per row |
| Syft.ParseCpe | src/adapters/syft_adapter.py:9-22 | segments 3 and 4 of a CPE with at least six colon segments, otherwise nothing; neither holds a colon |
| Syft.ParseCpeAgrees | src/adapters/syft_adapter.py:15-19 | for non-wildcard vendor and product, the scanner reads the same vendor and product as the feed loader stores |
| Syft.LayerIndexMeaning | src/adapters/syft_adapter.py:76-81 | a digest is mapped exactly when some layer has it, and to the last such layer |
| Syft.BuildLayerIndex | src/adapters/syft_adapter.py:76-81 | the loop builds that map |
| Syft.ClassifyOutcomes | src/adapters/syft_adapter.py:89-134 | ineligible artifacts are skipped; OS-package artifacts become packages with the CPE or OS-name vendor and the CPE or artifact product, raising exactly when the OS name is blank and needed; other artifacts become binaries exactly when in a binary directory |
| Syft.ClassifiedSound | src/adapters/syft_adapter.py:88-134 | every package comes from an eligible OS-package artifact with its name and version; every binary lies in a binary directory |
| Syft.ClassifiedFails | src/adapters/syft_adapter.py:88-134 | the scan raises exactly when some artifact's classification raises |
| Syft.ClassifiedPrefixErr | src/adapters/syft_adapter.py:88-134 | the first exception ends the loop |
| Syft.ClassifyArtifacts | src/adapters/syft_adapter.py:88-134 | the loop computes `Classified` |
| Syft.SyftAdapter.constructor | src/adapters/syft_adapter.py:26-31 | all five caches start empty |
| Syft.SyftAdapter.RunScanIfNeeded | src/adapters/syft_adapter.py:55-138 | nothing changes for the image scanned last; the OS caches are written before classification; packages, binaries and the image are replaced only when classification succeeds |
| Syft.SyftAdapter.GetPackages | src/adapters/syft_adapter.py:140-142 | the scan if needed, then the package cache or `[]` |
| Syft.SyftAdapter.GetNonPackageBinaries | src/adapters/syft_adapter.py:144-146 | the scan if needed, then the binary cache or `[]` |
| Syft.SyftAdapter.GetOsInfo | src/adapters/syft_adapter.py:148-150 | the scan if needed, then the OS caches with empty or missing values as `unknown` |
| Syft.NoDistroUnknown | src/adapters/syft_adapter.py:67-71 | a scan without a distro reports `unknown`, whose vendor fallback is `unknown` |
| UseCases.AddToSteps | src/core/use_cases.py:57-65 | the three dictionary updates of one pass are one `AddTo` |
| UseCases.GroupVulnerabilities | src/core/use_cases.py:51-65 | the loop computes `Grouped` |
| UseCases.GroupedMeaning | src/core/use_cases.py:51-65 | the outer keys are exactly the names that occur, the inner keys exactly the versions seen with the name, and each list holds exactly that name's and version's matches in input order |
| UseCases.GroupedNonEmpty | src/core/use_cases.py:57-65 | no list is empty |
| UseCases.AddToTotal | src/core/use_cases.py:65 | one pass files exactly one match |
| UseCases.GroupedTotal | src/core/use_cases.py:51-65 | the list lengths add up to the number of matches |
| UseCases.AnalyzeImage | src/core/use_cases.py:16-73 | the scanner adapter's caches end as one scan of the image leaves them; the asset report comes from the scanner adapter alone and exists even when the OS lookup raises; the report holds the OS matches and the grouped package matches |
| Summary.BucketMeaning | src/adapters/summary_adapter.py:20-25 | absent or empty severities are unknown, `NEGLIGIBLE` in any case is none, and any other lands in a named bucket exactly when its upper-cased form is that name |
| Summary.BucketIgnoresCase | src/adapters/summary_adapter.py:20 | the bucket does not depend on letter case |
| Summary.NegligibleIsNone | src/adapters/summary_adapter.py:22-23 | `negligible` counts as none |
| Summary.NegligibleUpperIsNone | src/adapters/summary_adapter.py:22-23 | `NEGLIGIBLE` counts as none |
| Summary.MixedCaseNoneIsNone | src/adapters/summary_adapter.py:20-24 | `None` as a string counts as none |
| Summary.UnknownExamples | src/adapters/summary_adapter.py:20-25 | `moderate`, a missing and an empty severity count as unknown |
| Summary.CountByPositive | src/adapters/summary_adapter.py:27 | a bucket is counted exactly when some element falls in it |
| Summary.CountPositive | src/adapters/summary_adapter.py:17-27 | a bucket is counted exactly when some match falls in it |
| Summary.CountByPartition | src/adapters/summary_adapter.py:17-27 | the six counts add up to the number of elements |
| Summary.BucketsPartition | src/adapters/summary_adapter.py:17-27 | the six counts add up to the number of matches |
| Summary.CountSeverities | src/adapters/summary_adapter.py:17-27 | every bucket's `get(b, 0)` is its count, and every key present has a positive count |
| Summary.Save | src/adapters/summary_adapter.py:11-40 | the corrected summary: the total is the number of OS plus package matches, each key holds its bucket's count, and the counts add up to the total |
| Summary.CombinedAsWritten | src/adapters/summary_adapter.py:14 | the combination as written raises `TypeError` for every report |
| Summary.SummaryAsWrittenFails | src/adapters/summary_adapter.py:14 | even the empty report raises |
| Summary.CountByAppend | src/adapters/summary_adapter.py:14-27 | counting two lists together is counting each and adding |
| Summary.AddToCount | src/core/use_cases.py:57-65 | one pass of the grouping loop adds one match to its own bucket's count over the grouping, and to no other |
| Summary.GroupedCountMatches | src/core/use_cases.py:51-65 | every bucket counts the same over the grouping as over the flat list of package matches |
| Summary.SummaryCoversReport | src/adapters/summary_adapter.py:14 | over the flat package matches, the total is the OS matches plus every entry of the report's grouping, and each bucket's count is the OS matches in it plus the grouped package matches in it |
| EndToEnd.ScanFindsOpenssl | src/adapters/syft_adapter.py:104-125 | a Debian `openssl` artifact without CPEs becomes the package `openssl`, vendor `debian`, in layer 0 |
| EndToEnd.ClassifyOpenssl | src/adapters/syft_adapter.py:104-125 | the one artifact classifies to that package |
| EndToEnd.DebianWord | src/adapters/syft_adapter.py:113 | `debian` lower-cases and splits to itself |
| EndToEnd.OneRow | src/adapters/postgres_cve_adapter.py:98-112 | the join of that package with a one-CVE store has exactly one row |
| EndToEnd.CleanedVersion | src/adapters/postgres_cve_adapter.py:76 | `1.1.1-1+deb` cleans to the stored `1.1.1` |
| EndToEnd.StoredRowReported | src/adapters/postgres_cve_adapter.py:128-136 | the stored row is reported as CVE-2021-0001, openssl, 1.1.1, severity HIGH |
| EndToEnd.SingleRowListed | src/adapters/postgres_cve_adapter.py:128-136 | a one-row result is listed once |
| EndToEnd.ScenarioLookup | src/adapters/postgres_cve_adapter.py:12-142 | with the three database variables set, the lookup returns exactly CVE-2021-0001 for openssl 1.1.1 with severity HIGH |

## Left out

- I/O is not modelled. This means the NVD and OSV downloads (`download_nvd_data`, `download_and_extract`), reading files and `os.listdir`, `json.load`, and writing the reports and the summary file. Downloads, listings and parsed documents are parameters: a directory listing is a sequence of entries, and a failed download is `None`.
- The scanner subprocess (`_get_syft_json`) is not modelled. Its outcome is a `Result<SyftJson>` parameter: `Err(FileNotFound)` when the executable is missing, `EmptyScan` for `{}`, otherwise the parsed document.
- `print`, `tqdm`, the `DELAY` sleeps and the debug SQL writers (`_write_debug_sql_file`, the OS debug file and its quote doubling) produce output only.
- The database server is the `Store.VulnStore` object. PostgreSQL behaviour is assumed where the schema is not visible:
  - NULL columns compare equal inside the ten-column uniqueness key (`Option` equality);
  - a sequence value is consumed even when an upsert conflicts;
  - a rollback does not rewind a sequence.
- A server-side failure of a single statement is not modelled: `ensure_product_exists` and the upserts always succeed. The per-CPE `except Exception: continue` in `load_json_to_db` therefore never fires, and the aborted-transaction behaviour of psycopg2 after such an error is not modelled.
- The environment is a `DbEnv` value passed to each lookup; reading it once in `__init__` and keeping the string in the adapter is not modelled as state, since nothing changes it afterwards. `CveAdapter.ConnectionString` carries no `ensures` of its own; `CveAdapter.ConnectionConfigured` states what the lookups rely on.
- A failed connection is not modelled as such. The correlation adapter sees a snapshot `Option<Tables>`, and `None` stands for a failed connection or query (`psycopg.Error`). The returned rows are a set, and their order is unspecified.
- JSON values of the wrong type are not modelled: a `null` OS name, an `affected` entry that is not an object, or a `criteria` that is not a string. The scanner's `distro.name` is read as `Option`, and a `null` name is read like a missing one.
- Python's `lower`, `upper` and `\d` are modelled for ASCII only. `str.split()` uses Python's Unicode whitespace set.
- CPE escaping (`\:` inside a field) is not recognised by the source's naive `split(':')`, and the model does the same.
- CVSS scores are opaque values (`Store.Score`). They are stored and returned, never computed with.
- The ecosystem table's download URLs are not part of `Osv.Ecosystems`, because nothing but the download uses them.
- `Osv.ProcessEcosystem` returns the CVE id cache, which is a local variable in the source, so that its contents can be stated.
- `src/adapters/cyclonedx_adapter.py`, `src/adapters/json_repository.py`, `src/main.py` and `src/core/ports.py` are not part of this model. They only write files, wire the adapters together, or declare interfaces.
- `Syft.Classify`, `Summary.Bucket` and `UseCases.Select` carry no `ensures` of their own. What they mean is stated by `Syft.ClassifyOutcomes`, `Summary.BucketMeaning` and `UseCases.GroupedMeaning`.
- A blank OS name is not a precondition here. When `os_name.lower().split()[0]` meets a name that is empty or all whitespace, it raises `IndexError`, and the model returns that as an `Err`.
- Incremental NVD runs whose download reported no data stop before connecting (`NoUpdates`). A full run with no data still resets the tables, as in the source.

## Findings

| source | as written | input that shows it | evidently intended | confidence | as-written member | corrected member |
|---|---|---|---|---|---|---|
| src/adapters/summary_adapter.py:14 | `all_vulns = vuln_report.os_vulnerabilities + vuln_report.package_vulnerabilities` adds a list to the grouped dictionary, which Python rejects with `TypeError` | any report, e.g. image `nginx:1.10.3` with no OS matches and an empty grouping | count the OS matches together with every package match of the grouping | not executed | Summary.CombinedAsWritten | Summary.Save |
