# api-sgas: filters, normalisers and referential checks

This project models api-sgas in Dafny. api-sgas is a CRUD service for companies, their branches, sectors, addresses, notices and login credentials. Its logic lives in three layers that every controller repeats:

- **Query filters.** Each list handler builds a store filter from the query string. The controllers share:
  - the status filter: absent or `''` means active (or never set), `'all'` means anything, otherwise one number;
  - the company search;
  - the matrix/branch filter.
- **Payload normalisers.** A request body becomes the document written to the store.
- **Checks before any write.** These are required fields, the owning company (and, for notices, the sector), and the order in which the failures are reported.

The store is modelled by the class `Store.Db`: one table per collection, with records kept in insertion order. Writes apply the schema behaviour the models declare:
- defaults;
- `trim`/`lowercase` setters;
- required paths and the status enumeration;
- unique indexes.

Updates run the update validators on the paths being set. Every handler is a method that returns a `Response` (code and body). Its contract states the response for every input, and it states that nothing is written on any failure path.

Modules:
- `JsValues`: JavaScript values, truthiness, `trim`, `toLowerCase`, `String(v)`, `Number(v)`.
- `Query`: the query language, the status filter and `sanitizeStatusValue`.
- `Filters`: the mutable `filter` object.
- `CompanyModel`, `CredentialModel`, `RecordModels`: the schemas.
- `Store`: the collections and the calls `find`, `findOne`, `findById`, `create` and `findByIdAndUpdate`.
- `Http`: responses.
- `Referential`: the company and sector checks.
- `CompanyRules`: the pure helpers of the company controller.
- One module per controller: `CompanyController`, `AuthController`, `NoticeController`, `AddressController`, `SectorController`.

The one place where the code is wrong:
- **Address `cep`.** The address normaliser never copies `cep`, which the address schema requires (see Findings).
  - `AddressController.CreateAddress` and `UpdateAddress` model the handlers as written: every create that passes the checks answers 500, and an update never changes `cep`.
  - `CreateAddressCorrected` and `UpdateAddressCorrected` run a corrected normaliser that copies `cep`.

Behaviour of the code that the model keeps, although a reader may not expect it:
- **Sector status.** The sector schema has no `status` path. So the active-sector check in the notice handlers admits every stored sector (`SectorController.SectorsAlwaysActive`).
- **Notice update.** With a sector and no company in the payload, the company is taken from the stored notice. An unknown notice id then gives 400, not 404 (`NoticeController.UpdateSectorOwner`).
- **Sector create.** The company is checked before the name.
- **Sector routes.** They only require the company to exist, not to be active.

## Model

| member | source | states |
|---|---|---|
| Query.ResolveStatusFilter | src/controllers/companyController.js:14-23 | `'all'` and only `'all'` resolves to no filter. Absent, `null` and `''` resolve to status 1. Any other value resolves to `Number(value)` when that is a number, and to status 1 when it is NaN. |
| Query.BuildStatusClause | src/controllers/companyController.js:25-34 | There is no clause exactly for `'all'`. |
| Query.StatusClauseMeaning | src/controllers/companyController.js:25-34 | The clause built selects a record iff the resolved filter admits its status: status n, or for status 1 also an unset status. |
| Query.ActiveOrUnsetMeaning | src/controllers/companyController.js:4 | The active clause holds iff the status is 1 or unset. |
| Query.StatusFilterConjoins | src/controllers/companyController.js:36-44 | Applying the status parameter keeps exactly the records of the original query whose status the parameter admits. |
| Query.StatusFilterDefaults | src/controllers/companyController.js:14-23 | `''`, absent, `'1'` and an unparseable word all resolve to status 1 and build the active clause. |
| Query.StatusFilterExact | src/controllers/companyController.js:25-34 | `'0'` keeps exactly the records with status 0; `'all'` builds no clause. |
| Query.SanitizeStatusValue | src/controllers/companyController.js:6-12 | The result is `undefined` for nullish, `''` or NaN input, and otherwise the number `Number(value)`. |
| Query.AddClauseConjoins | src/controllers/companyController.js:36-44 | Pushing a clause onto `$and` gives a query that holds iff the old query and the clause both hold. |
| Query.AddClauseNarrows | src/controllers/companyController.js:59-67 | Pushing a clause onto `$and` never adds results. |
| Query.SetFieldConjoins | src/controllers/noticeController.js:139-149 | Setting an unconstrained filter key conjoins its equality. |
| Filters.QueryFilter.ApplyStatusFilter | src/controllers/companyController.js:36-44 | The filter becomes the old filter with the status clause, if any, appended. The result narrows the old filter. |
| Filters.QueryFilter.ApplySearchFilter | src/controllers/companyController.js:59-67 | The filter becomes the old filter with the search clause, if any, appended. The result narrows the old filter. |
| Filters.QueryFilter.ApplyMatrixFilter | src/controllers/companyController.js:102-110 | The filter becomes the old filter with the matrix clause, if any, appended. The result narrows the old filter. |
| Filters.QueryFilter.Push | src/controllers/companyController.js:40-43 | The keys are unchanged and the old `$and` list is a prefix of the new one. |
| CompanyRules.EscapeRegexAt | src/controllers/companyController.js:46 | Each regex metacharacter is prefixed with a backslash; every other character is kept, at its position. |
| CompanyRules.EscapeRegexConcat | src/controllers/companyController.js:46 | Escaping distributes over concatenation. |
| CompanyRules.UnescapeEscapeRegex | src/controllers/companyController.js:46 | The escaped pattern, read as a regular expression, stands for exactly the original text. |
| CompanyRules.BuildSearchClause | src/controllers/companyController.js:48-57 | There is no clause iff the search is not a string or is blank after trimming. |
| CompanyRules.SearchClauseMeaning | src/controllers/companyController.js:48-57 | The clause matches iff name, legalName or cnpj contains the trimmed text, ignoring case. |
| CompanyRules.ParseBooleanLike | src/controllers/companyController.js:69-75 | Nullish and `''` give nothing. Otherwise the result is true iff the lower-cased text is one of true/1/yes/y, and false iff it is one of false/0/no/n. |
| CompanyRules.ParseBooleanLikeIgnoresCase | src/controllers/companyController.js:71 | The parse of a string equals the parse of its lower-cased form. |
| CompanyRules.BuildMatrixClause | src/controllers/companyController.js:77-100 | There is no clause iff the parse gives nothing. Yes gives the matrix clause and no gives the branch clause. |
| CompanyRules.MatrixOnlyMeaning | src/controllers/companyController.js:81-89 | The matrix clause holds iff `matrixCompany.id` is null or missing. |
| CompanyRules.BranchesOnlyMeaning | src/controllers/companyController.js:92-99 | The branch clause holds iff `matrixCompany.id` is set and not null. |
| CompanyRules.MatrixClausesComplementary | src/controllers/companyController.js:77-100 | On every record, the matrix clause holds iff the branch clause does not. |
| CompanyRules.MatrixClauseAgreesWithVirtual | src/models/Company.js:67-69 | The `isMatrix=true` filter agrees with the `isMatrix` virtual, on records whose parent id, when present, is truthy. |
| CompanyRules.NormalizeMatrixCompany | src/controllers/companyController.js:112-133 | The result is either null or an `{id, name}` object. A falsy, boolean or numeric input gives null. A string gives its trimmed id, or null when blank. An object gets the string of `id`, else of `_id`, else of the object itself. Its name is `name`, else `legalName`, else null. |
| CompanyRules.ObjectMatrixIdFallback | src/controllers/companyController.js:121 | An object without `id` or `_id` falls back to itself and gets the id `[object Object]`. |
| CompanyRules.FilterTruthy | src/controllers/companyController.js:149-150 | Every element of the result is truthy. A value occurs in the result iff it is a truthy element of the input. The result is no longer than the input. |
| CompanyRules.FilterTruthyCounts | src/controllers/companyController.js:149-150 | Each truthy value occurs in the result as many times as in the input. |
| CompanyRules.FilterTruthyConcat | src/controllers/companyController.js:149-150 | Filtering a concatenation gives the concatenation of the filtered parts, so the input order is kept. |
| CompanyRules.NormalizeCompanyPayload | src/controllers/companyController.js:135-164 | The payload has exactly the ten keys. The descriptive fields are copied, the phone and e-mail lists hold only truthy entries, the parent reference is normalised and the status is sanitised. |
| CompanyRules.ResponseMatrix | src/controllers/companyController.js:170-178 | The result is null iff the reference is falsy; otherwise it is an `{id, name}` object. |
| CompanyRules.ResponseMatrixPreserves | src/controllers/companyController.js:170-175 | A reference `{id, name}` with a non-blank string id and a truthy or null name is answered unchanged. |
| CompanyRules.NormalizedMatrixShown | src/controllers/companyController.js:112-133 | A parent reference as the normaliser stores it is answered unchanged, unless its id is the empty string. |
| CompanyRules.ResponseMatrixIdempotent | src/controllers/companyController.js:170-178 | Mapping a mapped reference again changes nothing, unless the id is an array. |
| CompanyRules.ResponseMatrixOfIdString | src/controllers/companyController.js:117 | A non-blank id string, normalised and then mapped, reads back as `{id: trimmed, name: null}`. |
| CompanyRules.MapCompanyResponse | src/controllers/companyController.js:166-181 | `_id` and `__v` are gone and `id` is the old `_id`. The parent reference is reshaped, every other field is kept, and no other field is added. |
| CompanyModel.Defaults | src/models/Company.js:45-62 | A new company defaults to status 1 and no parent reference. |
| CompanyModel.ToJson | src/models/Company.js:71-78 | `_id` is renamed to `id` and `isMatrix` is the virtual's value. |
| CompanyModel.CreatedStatus | src/models/Company.js:58-62 | A validated new company has status 0 or 1, and status 1 when none was given. |
| CompanyModel.DefaultIsMatrix | src/models/Company.js:67-69 | Without a parent reference, a new company is a matrix. |
| CredentialModel.Defaults | src/models/LoginCredential.js:25-34 | A new credential defaults to no branch (the matrix) and status 1. |
| CredentialModel.NormalizeEmail | src/models/LoginCredential.js:10-15 | A string e-mail is stored trimmed and lower-cased; anything else is kept as it is. |
| CredentialModel.Cast | src/models/LoginCredential.js:4-35 | Only `email` and `name` are changed by the setters; every other path is kept. |
| CredentialModel.UniqueKey | src/models/LoginCredential.js:39 | The index value is an array of four parts. |
| CredentialModel.UniqueKeyParts | src/models/LoginCredential.js:39 | Two records have the same index value iff their email, company, branch and status agree, an unset one counting as null. |
| CredentialModel.ToJson | src/models/LoginCredential.js:41-48 | `_id` is renamed to `id` and `passwordHash` is removed. Every other field is kept. |
| CredentialModel.EmailStoredNormalized | src/models/LoginCredential.js:10-15 | A stored e-mail is trimmed and lower-cased, and applying the setters again changes nothing. |
| JsValues.TrimLowerIdempotent | src/models/LoginCredential.js:13-14 | Trimming and lower-casing a second time changes nothing. |
| JsValues.RenameId | src/models/Notice.js:41-47 | The shared `toJSON` transform: `_id` is removed, `id` is the old `_id`, and every other field is kept. |
| JsValues.DropUndefined | src/controllers/noticeController.js:71-73 | The entries kept are exactly those whose value is not `undefined`, with their values. |
| Store.Prepared | src/models/Company.js:3-65 | The new record carries the new id, and every defined payload path reaches it. |
| Store.Changes | src/controllers/companyController.js:223-227 | The update sets exactly the defined payload paths other than `_id`. |
| Store.SelectFrom | src/controllers/companyController.js:199 | Every result is a stored record that matches. Every stored record that matches is among the results. |
| Store.SelectMeaning | src/controllers/companyController.js:199 | A record is listed iff it is stored and matches the filter. |
| Store.SelectNarrows | src/controllers/companyController.js:192-204 | A narrower filter lists a subset. |
| Store.SelectById | src/controllers/companyController.js:208-211 | A query on `_id` finds the record under that id iff it is stored and satisfies the other clauses. |
| Store.Db.Find | src/controllers/companyController.js:199 | The scan returns exactly `Select` of the collection: the matching records in insertion order. |
| Store.Db.FindOne | src/controllers/authController.js:142-147 | It returns nothing iff nothing matches, and otherwise the first match. |
| Store.Db.FindById | src/controllers/sectorController.js:43 | It finds a record iff one is stored under the id, and returns that record. |
| Store.Db.FindActiveById | src/controllers/noticeController.js:82 | It finds a record iff one is stored under the id and its status is 1 or unset. |
| Store.Db.Insert | src/models/Company.js:3-65 | `create` fails validation iff the prepared record is invalid, and fails on a duplicate key iff it would clash with the unique index. Otherwise it appends the record under the fresh id. The store stays well formed, and unchanged on failure. |
| Store.Db.UpdateById | src/controllers/companyController.js:223-227 | The answer is `UpdateOutcome`. On success only the record under the id is replaced. Otherwise nothing changes. The store stays well formed. |
| Store.UpdateOutcome | src/controllers/companyController.js:223-227 | The validators refuse iff the set paths are invalid. They run before the lookup. An unknown id gives no record, a clash gives a duplicate key, and otherwise the answer is the old record with the changes applied. Each case is an iff. |
| Store.InsertKeepsStore | src/models/LoginCredential.js:39 | Inserting a fresh, non-clashing record keeps every collection well formed and every unique index unique. |
| Store.ReplaceKeepsStore | src/models/Company.js:17 | Replacing a record with a non-clashing one keeps the store well formed. |
| Store.ToJson | src/models/Sector.js:52-58 | `_id` is renamed to `id` in every model. A credential never shows its hash. |
| Referential.CompanyRejection | src/controllers/noticeController.js:76-89 | There is no rejection iff the id is truthy and names an active company (or any stored company, for the sector controller). Codes are 400 or 404. |
| Referential.SectorRejection | src/controllers/noticeController.js:91-110 | There is no rejection iff there is no sector, or it is an active sector whose company matches as a string. Codes are 400 or 404. |
| Referential.UpdateReply | src/controllers/noticeController.js:202-214 | The reply is 500 iff the store erred, 404 iff there is no record, and 200 with the renamed record iff there is one. |
| Referential.CreateChecked | src/controllers/noticeController.js:128-131 | A check that answered is sent as is, with no write. Otherwise 201 iff the schema accepts the prepared record and no unique key clashes; the record is then stored and returned renamed, and every other collection is unchanged. Any other outcome is 500 with nothing written. |
| Referential.EnsureActiveCompany | src/controllers/noticeController.js:76-89 | No id gives 400. Otherwise the check gives 404 iff no active company has the id, and finds that company iff one does. |
| Referential.EnsureStoredCompany | src/controllers/sectorController.js:37-50 | The same as the active check, but any stored company passes, active or not. |
| Referential.EnsureSectorIsValid | src/controllers/noticeController.js:91-110 | No sector skips the check. A missing or inactive sector gives 404 and one of another company gives 400. Each case is an iff. |
| CompanyController.ListQueryMeaning | src/controllers/companyController.js:192-198 | A company is listed iff the status, the search (`search` or `q`) and the matrix (`isMatrix` ?? `matrixOnly`) parameters all admit it. |
| CompanyController.ListCompanies | src/controllers/companyController.js:192-204 | The response is 200 with the companies the filter selects, in store order, mapped. |
| CompanyController.CreateCompany | src/controllers/companyController.js:183-190 | The response is 201 iff the prepared record is valid and its cnpj is new; the record is then stored and every other collection is unchanged. Otherwise it is 500 with nothing written. |
| CompanyController.GetCompanyById | src/controllers/companyController.js:206-219 | The response is 200 with the mapped record iff an active company has the id, and otherwise 404. |
| CompanyController.UpdateCompany | src/controllers/companyController.js:221-237 | It gives 404 iff the changes are valid and the id is unknown, and 500 iff they are invalid or clash. It gives 200 iff the changes are valid, the id is stored and nothing clashes. On 200 exactly that company is replaced and every other collection is unchanged. Nothing is written otherwise. |
| CompanyController.CreatedCompanyShape | src/controllers/companyController.js:143-162 | A new company is active when no status is given, and a matrix when no parent is given. Its phone list holds no falsy entry. |
| CompanyController.UpdateResetsOmittedFields | src/controllers/companyController.js:143-145 | An update that omits the lists and the parent empties the lists and clears the parent, but keeps an omitted status. |
| AuthController.NormalizeBranch | src/controllers/authController.js:41-46 | The result is null iff the branch is falsy or strictly equal to the company, and the branch itself otherwise. |
| AuthController.NormalizeBranchIdempotent | src/controllers/authController.js:41-46 | Normalising twice is normalising once. |
| AuthController.Significant | src/controllers/authController.js:75 | bcrypt reads at most the first 72 characters of a password: the part read is the whole of a password of at most 72 characters, and exactly its first 72 characters otherwise. |
| AuthController.Hash | src/controllers/authController.js:75 | The hash carries the cost-10 bcrypt prefix `$2b$10$`. |
| AuthController.VerifyHash | src/controllers/authController.js:168 | A hash verifies the password it was made from, and any password that agrees with it on the first 72 characters. |
| AuthController.LongPasswordsCollide | src/controllers/authController.js:168 | Two different passwords that differ only after the 72nd character verify against each other's hash. |
| AuthController.PlainPasswordNotStored | src/controllers/authController.js:77-84 | The record registration stores has no `password` field. |
| AuthController.RegisteredCredentialShape | src/controllers/authController.js:75-84 | A created credential is active and has the normalised branch and the company id. It stores the hash, has no plain `password` field, and stores the e-mail normalised. |
| AuthController.RegisterCredential | src/controllers/authController.js:48-95 | Missing fields give 400, then an inactive company 404, then an inactive distinct branch 404 (each an iff). Past the checks, a non-string password gives 500. Otherwise 409 iff the record is valid and clashes, 201 iff it is valid and does not, and 500 iff it is invalid. On 201 the record is stored and every other collection is unchanged. There is no write on any failure. |
| AuthController.ListQueryMeaning | src/controllers/authController.js:97-109 | A credential is listed iff the company, the normalised branch (null meaning the matrix) and the status all match. |
| AuthController.BranchEqualToCompanyListsMatrix | src/controllers/authController.js:105-107 | A branch filter equal to the company lists only matrix credentials of that company. |
| AuthController.Sanitize | src/controllers/authController.js:116-119 | `passwordHash` and `__v` are gone and every other field is kept. |
| AuthController.ListCredentials | src/controllers/authController.js:97-125 | The response lists the selected credentials in order, sanitised, and none of them shows a hash. |
| AuthController.Login | src/controllers/authController.js:127-187 | The handler has a fixed order of 400, 400, 401 (no credential, or an inactive company or branch), 500 and 401 (wrong password), each an iff. Success returns `branchId = branch \|\| companyId` and `matriz` iff there is no branch. |
| AuthController.RegisteredPasswordVerifies | src/controllers/authController.js:168-174 | The stored hash of a registered credential verifies the password given at registration, and any password that agrees with it on the first 72 characters. |
| NoticeController.NormalizeNoticePayload | src/controllers/noticeController.js:48-74 | It uses `company = companyId \|\| company` and `sector = sectorId \|\| sector \|\| null`, so `sector` is always present. The status is sanitised, the other fields are copied, and there are no undefined entries. |
| NoticeController.CreateRejectionMeaning | src/controllers/noticeController.js:116-126 | The checks pass iff there is a message, an active company, and a sector (if given) that is active and of that company. Codes are 400 or 404. |
| NoticeController.CheckCreate | src/controllers/noticeController.js:116-126 | The checks, in source order, answer exactly `CreateRejection`. |
| NoticeController.CreateNotice | src/controllers/noticeController.js:112-133 | A failed check is answered as is. Once the checks pass, 201 iff the schema accepts the record, otherwise 500. On 201 the record is stored and every other collection is unchanged; there is no write otherwise. |
| NoticeController.ListQueryMeaning | src/controllers/noticeController.js:135-151 | A notice is listed iff its company and sector match and `viewed` equals `(viewed === 'true')` when given, and the status is admitted. |
| NoticeController.ListNotices | src/controllers/noticeController.js:135-162 | The response is 200 with the selected notices in store order. |
| NoticeController.GetNoticeById | src/controllers/noticeController.js:164-179 | The response is 200 iff the notice is stored, whatever its status, and otherwise 404. |
| NoticeController.UpdateSectorOwner | src/controllers/noticeController.js:190-200 | Without a payload company, the sector is checked against the stored notice's company. An unknown notice, or one without a company, gives 400. |
| NoticeController.UpdateWithoutSectorClearsIt | src/controllers/noticeController.js:64 | An update without a sector clears the notice's sector, but keeps an omitted status. |
| NoticeController.CheckUpdate | src/controllers/noticeController.js:185-200 | The checks, in source order, answer exactly `UpdateRejection`. |
| NoticeController.UpdateNotice | src/controllers/noticeController.js:181-218 | A failed check is answered as is. Otherwise the reply is 500, 404 or 200 according to `UpdateOutcome`. On 200 only that notice is replaced and every other collection is unchanged; nothing is written otherwise. |
| AddressController.StatusValue | src/controllers/addressController.js:64 | `undefined` iff the status is nullish. Otherwise NaN iff `Number` fails, and the number otherwise. |
| AddressController.NormalizePayloadAsWritten | src/controllers/addressController.js:53-68 | As written, `cep` is never in the payload. The listed fields are copied, the company is `companyId \|\| company`, and there are no undefined entries. |
| AddressController.NormalizePayload | src/controllers/addressController.js:53-68 | The corrected normaliser: every string path, `cep` included, is copied. Otherwise it is as written. |
| AddressController.NormalizersDifferInCep | src/controllers/addressController.js:54 | The two normalisers differ in `cep` only. |
| AddressController.CreateAsWrittenNeverValid | src/models/Address.js:15-19 | As written, no record `createAddress` prepares passes validation. |
| AddressController.CreateCompleteBodyValid | src/models/Address.js:4-50 | With the correction, a body that has every required field filled, a company and no status gives a valid record. |
| AddressController.CreateRejection | src/controllers/addressController.js:74-81 | The checks pass iff the five listed fields are there and the company is active. A missing field gives 400. |
| AddressController.CheckCreate | src/controllers/addressController.js:74-81 | The checks, in source order, answer exactly `CreateRejection`. |
| AddressController.CreateAddress | src/controllers/addressController.js:70-88 | As written: a failed check is answered as is, and every request that passes the checks answers 500. Nothing is ever written. |
| AddressController.CreateAddressCorrected | src/controllers/addressController.js:70-88 | With the corrected normaliser: a failed check is answered as is. Once the checks pass, 201 iff the schema accepts the record, otherwise 500. On 201 the record is stored and every other collection is unchanged; there is no write otherwise. |
| AddressController.ListQueryMeaning | src/controllers/addressController.js:90-98 | An address is listed iff its company matches and the status is admitted. |
| AddressController.ListAddresses | src/controllers/addressController.js:90-105 | The response is 200 with the selected addresses in store order. |
| AddressController.GetAddressById | src/controllers/addressController.js:107-117 | The response is 200 iff the address is stored, and otherwise 404. |
| AddressController.UpdateRejection | src/controllers/addressController.js:123-126 | Only a given company is checked, and it must be active. A rejection is always 404. |
| AddressController.UpdateAddress | src/controllers/addressController.js:119-143 | As written: a failed check is answered as is. Otherwise the reply follows `UpdateOutcome` of the payload without `cep`. On 200 only that address is replaced and every other collection is unchanged; nothing is written otherwise. |
| AddressController.UpdateAddressCorrected | src/controllers/addressController.js:119-143 | The same, with the corrected normaliser, whose payload may set `cep`. |
| AddressController.UpdateKeepsCep | src/controllers/addressController.js:53-68 | As written, an update never changes the stored `cep`, whatever the body gives. |
| AddressController.UpdateStatus | src/controllers/addressController.js:64 | An omitted status is kept. A status that is not a number is refused by the update validators. |
| SectorController.NormalizeSectorPayload | src/controllers/sectorController.js:4-35 | The nine descriptive fields are copied and the company is `companyId \|\| company`. Nothing else is set, and there are no undefined entries. |
| SectorController.SectorsAlwaysActive | src/models/Sector.js:4-50 | A sector is never given a status, on create or on update, so it always counts as active. |
| SectorController.CreateRejection | src/controllers/sectorController.js:56-61 | The checks pass iff the company id is truthy, names a stored company, and the name is set. The company is checked before the name. |
| SectorController.CheckCreate | src/controllers/sectorController.js:56-61 | The checks, in source order, answer exactly `CreateRejection`. |
| SectorController.CreateSector | src/controllers/sectorController.js:52-68 | A failed check is answered as is. Once the checks pass, 201 iff the schema accepts the record, otherwise 500. On 201 the record is stored and every other collection is unchanged; there is no write otherwise. |
| SectorController.ListQueryMeaning | src/controllers/sectorController.js:70-75 | A sector is listed iff it belongs to the company asked for, if any. There is no status filter. |
| SectorController.ListSectors | src/controllers/sectorController.js:70-85 | The response is 200 with the selected sectors in store order. |
| SectorController.ListSectorsByCompany | src/controllers/sectorController.js:87-101 | The company check (stored, not necessarily active) is answered as is. Otherwise the response is 200 with that company's sectors. |
| SectorController.ByCompanyMeaning | src/controllers/sectorController.js:93 | `{company: companyId}` selects exactly the sectors of that company. |
| SectorController.GetSectorById | src/controllers/sectorController.js:103-117 | The response is 200 iff the sector is stored, and otherwise 404. |
| SectorController.UpdateRejection | src/controllers/sectorController.js:123-126 | Only a given company is checked, and it must be stored. A rejection is always 404. |
| SectorController.UpdateSector | src/controllers/sectorController.js:119-143 | A failed check is answered as is. Otherwise the reply follows `UpdateOutcome`. On 200 only that sector is replaced and every other collection is unchanged; nothing is written otherwise. |

## Left out

- `Number(v)` is modelled on integers only. Decimal fractions, exponents, hexadecimal and `Infinity` are not parsed, and every such text is NaN here.
- `toLowerCase` folds ASCII letters only. `trim` removes the common white-space characters, not all of Unicode's.
- Casting of ids to ObjectIds is not modelled. A malformed id does not raise a CastError (a 500); it just finds nothing.
- The values of `populate`, `lean`, timestamps (`createdAt`, `updatedAt`) and the version key `__v` are left out. Listed records carry the stored references, not the populated company or sector.
- `Promise.all` over the company and branch lookups is executed one lookup after the other, since both only read.
- `bcrypt` is a foreign library. `Hash` is a stand-in: the cost prefix before the first 72 characters of the password. `Verify` is equality with that stand-in. Salt, rounds and timing are not modelled. One character stands for one byte, so the 72-byte limit is counted in characters.
- AuthController.Hash: the stand-in is not a real hash, so no contract or lemma states that a password that differs in its first 72 characters is refused. Real bcrypt refuses such a password except for a collision. The stand-in also does not promise that the hash differs from the password, which a real 60-character bcrypt hash does not promise either.
- Store.Cast (and `CompanyModel.Cast`, `CredentialModel.Cast`, `RecordModels.SectorCast`, `NoticeCast`, `AddressCast`): the `type: String` cast is not modelled. A number or boolean in a string path is kept as it is, where the store would turn it into its string. An object or array there is stored, where the store raises a CastError that the error handler answers with 500. For example, createCompany with `{name: {a: 1}, cnpj: "1"}` answers 500 in the code and 201 in the model.
- Operator injection through query values (an object such as `{ $ne: null }` passed as `email`) is not modelled. Query values are compared as plain values.
- Route wiring (src/routes) and the central error handler are not part of this model. Any error passed to `next` is the 500 response `InternalError`.
- The Company schema's `trim`/`lowercase` setters on the elements of `phones` and `emails`, and on `matrixCompany.name`, are not applied. Nor is the ObjectId cast of `matrixCompany.id`.
- Date casting of a notice's `expiresAt` and Boolean casting of `viewed` are not modelled. The values are stored as given.
- Whether `lean({ virtuals: true })` adds `isMatrix` depends on a plugin the repository does not show. The list, get and update responses of companies are `mapCompanyResponse` of the stored record, without `isMatrix`.
- `toJSON` runs as a function returning the transformed record, not by mutating `ret`.
- A request body that is not an object (the controllers destructure it) is read as having no properties.
- Strict-mode removal of paths the schema does not declare is not modelled. The normalisers only produce declared paths, except for the `_id` the store drops.
- Concurrency between requests is not modelled. Each handler runs atomically against the store.

## Findings

| source | as written | input that shows it | evidently intended | confidence | as-written member | corrected member |
|---|---|---|---|---|---|---|
| src/controllers/addressController.js:53-68 | `normalizePayload` copies street, number, complement, city, state and district, never `cep`, while src/models/Address.js:15-19 makes `cep` required, so `Address.create` always fails validation and `createAddress` answers 500; src/app.js:17-20 does not mount `addressRoutes`, so no HTTP client reaches this handler as the application stands | any body, e.g. `{ street: "A", number: "1", cep: "01000-000", city: "C", state: "S", district: "D", companyId: <active company> }` | `cep` copied like the other string fields, so a complete body is stored | not executed | AddressController.CreateAsWrittenNeverValid | AddressController.CreateCompleteBodyValid |
