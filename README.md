# Employee roster service: CPF validation and flat-file store

This project models the core of an ASP.NET controller, `FuncionarioController`. The controller keeps a roster of employees (`Funcionario`, with an owned address `Endereco`) in the text file `funcionarios.txt` and serves create, read, update and delete requests keyed by the employee's CPF. The CPF is the Brazilian taxpayer number: eleven digits, the last two of which are check digits.

The core has three parts. Each is a Dafny module:

- `Cpf` (cpf.dfy) models `VerificarCPF`. It strips every non-digit character, rejects anything that is not eleven digits, and rejects eleven equal digits. It then computes the two check digits with weighted sums modulo 11 and compares them with the last two digits. The method `VerificarCpf` keeps the source's two accumulating loops. It is proved equal to the predicate `CpfValid`, which follows the code, and equal to `StandardCpf`, which is the rule as usually stated. The code's second sum reads the input's tenth digit and not the computed first check digit. `CpfValidIsStandard` proves that this never changes the verdict.
- `LineCodec` (codec.dfy) models the file format. A record is one line of thirteen fields joined by `|`, with no escaping. Loading splits every line on `|` and keeps only the lines with exactly thirteen fields. A missing file loads as an empty roster. The file is modelled as `Option<seq<string>>`, where `None` means the file does not exist.
- `Controller` (controller.dfy) holds the list logic and the class `FuncionarioController`. The class's one field `arquivo` is the file. Each handler loads the whole roster, checks the request, changes the list and saves the whole roster. Its `ensures` give the result code and the new file in terms of the old roster. They also say what the next load will return.
- `Scenarios` (scenarios.dfy) proves request sequences from the handler contracts alone. It covers create then get, creating twice, delete then get, and a partial update.
- `Records` (records.dfy) holds the datatypes. Payload fields that may be null are `Option<string>`.

Behaviour that the model keeps on purpose:

- Validation strips formatting, but lookups and the duplicate check compare the raw CPF string, and the raw string is what gets stored. So `"529.982.247-25"` and `"52998224725"` are different keys (`Scenarios.FormattedCpfIsAnotherKey`).
- Every successful write rewrites the whole file from the loaded roster. Malformed lines are therefore dropped at the first save (`LineCodec.SaveAfterLoad`).
- A field containing `|` produces a line of more than thirteen fields, and the next load skips that line. A valid CPF written as `ddd|ddd|ddd|dd`, such as `529|982|247|25`, passes validation. `Adicionar` then answers Created, yet the record can never be read back (`Scenarios.SeparatorCpfIsLost`). Likewise, an update that puts `|` into a field removes the record from the roster the next load returns (`Atualizar`'s third `ensures`).
- For the same reason the duplicate check misses a record whose line was skipped. Posting a payload with `|` in any field twice answers Created both times and leaves the loaded roster unchanged (`Scenarios.UnstorableCreatedTwice`).

Behaviour kept as the code has it, though a reader might expect otherwise:

- The code stores and compares the CPF as given, not normalised to eleven digits.
- Uniqueness holds only for exact strings. `DistinctCpfs` is preserved by every handler, but it is not an invariant of arbitrary files. Both this preservation and the `Storable` round trip hold only for fields without line breaks. In the program, a field holding `\r` or `\n` splits its saved line, and on reload the pieces can form a whole extra thirteen-field line with any CPF, duplicates and invalid ones included. Line breaks are not modelled (see below).
- `Adicionar` rejects only a missing payload and an invalid CPF. It does not check for other malformed input.
- `ObterPorCPF` answers an invalid CPF with the message "cpf nao encontrado.".

## Model

| member | source | states |
|---|---|---|
| `Cpf.VerificarCpf` | trabalhodojoao/trabalhodojoao/Controllers/FuncionarioController.cs:16-44 | The two summing loops compute exactly the verdict `CpfValid`, which also equals the standard CPF rule `StandardCpf`. |
| `Cpf.CpfValid` | trabalhodojoao/trabalhodojoao/Controllers/FuncionarioController.cs:16-44 | The verdict as the code computes it. `VerificarCpf` computes it, `CpfValidIsStandard` proves it equals the standard rule, and `RejectsMalformed` gives its two early rejections. |
| `Cpf.Digits` | trabalhodojoao/trabalhodojoao/Controllers/FuncionarioController.cs:18 | Stripping keeps only digits and never lengthens the input. `DigitsAppend` and `InsertNonDigits` show that it ignores every non-digit wherever it appears. |
| `Cpf.AllSame` | trabalhodojoao/trabalhodojoao/Controllers/FuncionarioController.cs:19 | True exactly when any two characters of the string are equal. |
| `Cpf.WeightedSum` | trabalhodojoao/trabalhodojoao/Controllers/FuncionarioController.cs:28-31 | The sum of the first n digits times their weights. `WeightedSumBound` bounds it and `WeightedSumPrefix` shows that it depends only on the first n digits. |
| `Cpf.WeightedSumBound` | trabalhodojoao/trabalhodojoao/Controllers/FuncionarioController.cs:28-31 | With weights from 0 to 11, the sum of the first n weighted digits lies between 0 and 99 n, so the C# `int` accumulator cannot overflow. |
| `Cpf.EndsWith` | trabalhodojoao/trabalhodojoao/Controllers/FuncionarioController.cs:43 | The ordinal suffix test. `EndsWithLastTwo` shows that, on eleven digits and a two-character text, it compares exactly positions 9 and 10. |
| `Cpf.CheckDigitText` | trabalhodojoao/trabalhodojoao/Controllers/FuncionarioController.cs:32-33 | A check digit's text is always one character `'0'`–`'9'`. Its value is 0 for a remainder below 2 and 11 minus the remainder otherwise. |
| `Cpf.RejectsMalformed` | trabalhodojoao/trabalhodojoao/Controllers/FuncionarioController.cs:18-22 | If the digit-stripped string is not 11 long, or all 11 digits are equal, the verdict is false. |
| `Cpf.RejectsRepeatedDigit` | trabalhodojoao/trabalhodojoao/Controllers/FuncionarioController.cs:19-22 | Eleven copies of any one digit are rejected, whatever the checksum gives. |
| `Cpf.VerdictOfDigitsOnly` | trabalhodojoao/trabalhodojoao/Controllers/FuncionarioController.cs:18 | The verdict on a string equals the verdict on its digit subsequence. |
| `Cpf.InsertNonDigits` | trabalhodojoao/trabalhodojoao/Controllers/FuncionarioController.cs:18 | Inserting non-digit characters anywhere in the input never changes the verdict. |
| `Cpf.DigitsAppend` | trabalhodojoao/trabalhodojoao/Controllers/FuncionarioController.cs:18 | Stripping non-digits distributes over concatenation. |
| `Cpf.CpfValidIsStandard` | trabalhodojoao/trabalhodojoao/Controllers/FuncionarioController.cs:27-43 | The code's verdict holds iff the tenth and eleventh digits equal the standard check digits. Using the input's tenth digit in the second sum, not the computed one, never changes the verdict. |
| `Cpf.KnownValidCpf` | trabalhodojoao/trabalhodojoao/Controllers/FuncionarioController.cs:24-43 | `52998224725` is accepted: the sums are 295 and 347, giving check digits 2 and 5. |
| `Cpf.KnownValidFormatted` | trabalhodojoao/trabalhodojoao/Controllers/FuncionarioController.cs:18 | The formatted `529.982.247-25` is accepted too. |
| `Cpf.WrongLastDigitRejected` | trabalhodojoao/trabalhodojoao/Controllers/FuncionarioController.cs:35-43 | Replacing the last digit of `52998224725` with any other digit gives false. |
| `Cpf.DigitsOfMasked` | trabalhodojoao/trabalhodojoao/Controllers/FuncionarioController.cs:18 | Eleven digits written as `ddd?ddd?ddd?dd`, with non-digit separators, strip back to exactly those eleven digits. |
| `Cpf.MaskedVerdict` | trabalhodojoao/trabalhodojoao/Controllers/FuncionarioController.cs:18-43 | Eleven digits written as `ddd?ddd?ddd?dd`, with any non-digit separators, get the same verdict as the bare digits. |
| `Cpf.ValidByCheckDigits` | trabalhodojoao/trabalhodojoao/Controllers/FuncionarioController.cs:19-43 | Eleven digits that are not all equal, whose last two digits are the standard check digits of their sums, are accepted. |
| `LineCodec.Split` | trabalhodojoao/trabalhodojoao/Controllers/FuncionarioController.cs:55 | `Split('\|')` yields at least one piece, and no piece contains the separator. |
| `LineCodec.Join` | trabalhodojoao/trabalhodojoao/Controllers/FuncionarioController.cs:94 | Pieces written with `\|` between neighbours. `SplitJoin` and `JoinSplit` prove it is the inverse of `Split` on separator-free pieces, and `SplitJoinCount` proves that a piece holding `\|` adds extra pieces. |
| `LineCodec.Encode` | trabalhodojoao/trabalhodojoao/Controllers/FuncionarioController.cs:94 | The saved line of a record. `DecodeEncode` proves that decoding it gives the record back exactly when the record is storable. |
| `LineCodec.DecodeLines` | trabalhodojoao/trabalhodojoao/Controllers/FuncionarioController.cs:53-82 | The records of the lines in file order. `DecodeLinesAppend`, `LoadCount`, `LoadAfterSave` and `SaveAfterLoad` state what it keeps and what it drops. |
| `LineCodec.DecodeFile` | trabalhodojoao/trabalhodojoao/Controllers/FuncionarioController.cs:46-90 | A missing file loads as the empty roster; an existing one loads as `DecodeLines` of its lines. `ObterFuncionarios` is proved equal to it. |
| `LineCodec.Decode` | trabalhodojoao/trabalhodojoao/Controllers/FuncionarioController.cs:55-77 | A line gives a record exactly when it has 13 pieces. The record's fields, in file order, are those pieces. |
| `LineCodec.FromFields` | trabalhodojoao/trabalhodojoao/Controllers/FuncionarioController.cs:58-76 | The record built from 13 pieces has exactly those pieces as its fields, in file order. |
| `LineCodec.EncodeAll` | trabalhodojoao/trabalhodojoao/Controllers/FuncionarioController.cs:94 | Saving writes one line per record, in list order. Each line is that record's 13 fields joined by `\|`. |
| `LineCodec.SplitJoin` | trabalhodojoao/trabalhodojoao/Controllers/FuncionarioController.cs:94 | Splitting a join of separator-free fields gives back the fields. |
| `LineCodec.SplitJoinCount` | trabalhodojoao/trabalhodojoao/Controllers/FuncionarioController.cs:94 | A join splits into at least as many pieces as were joined. It splits into more if some field holds `\|`. |
| `LineCodec.JoinSplit` | trabalhodojoao/trabalhodojoao/Controllers/FuncionarioController.cs:55 | Joining the pieces of any line gives the line back. |
| `LineCodec.DecodeEncode` | trabalhodojoao/trabalhodojoao/Controllers/FuncionarioController.cs:55-76 | Round trip: decoding a record's saved line gives the record back iff no field contains `\|`. Otherwise the line is skipped. |
| `LineCodec.EncodeDecode` | trabalhodojoao/trabalhodojoao/Controllers/FuncionarioController.cs:94 | Every well-formed line decodes to a storable record, and that record's line is the original line. |
| `LineCodec.DecodeLinesAppend` | trabalhodojoao/trabalhodojoao/Controllers/FuncionarioController.cs:53-82 | Loading keeps file order: the load of `a + b` is the load of `a` followed by the load of `b`. |
| `LineCodec.LoadCount` | trabalhodojoao/trabalhodojoao/Controllers/FuncionarioController.cs:53-82 | Loading gives one record per 13-field line. Other lines are skipped. |
| `LineCodec.LoadedAreStorable` | trabalhodojoao/trabalhodojoao/Controllers/FuncionarioController.cs:55-76 | No field of a loaded record contains `\|`. |
| `LineCodec.LoadAfterSave` | trabalhodojoao/trabalhodojoao/Controllers/FuncionarioController.cs:92-96 | Loading a saved roster gives back exactly its storable records, in order. |
| `LineCodec.StorableOnlyKeeps` | trabalhodojoao/trabalhodojoao/Controllers/FuncionarioController.cs:92-96 | A roster of storable records survives save then load unchanged. |
| `LineCodec.SaveAfterLoad` | trabalhodojoao/trabalhodojoao/Controllers/FuncionarioController.cs:46-96 | Saving what was loaded writes the file's well-formed lines, unchanged and in order. |
| `LineCodec.ReloadIsStable` | trabalhodojoao/trabalhodojoao/Controllers/FuncionarioController.cs:46-96 | Load, save, then load again gives the same roster as the first load. |
| `Controller.FindFirst` | trabalhodojoao/trabalhodojoao/Controllers/FuncionarioController.cs:115 | `FirstOrDefault` by exact CPF string: the index found holds that CPF and no earlier record does. None means no record has that CPF. |
| `Controller.AnyWithCpf` | trabalhodojoao/trabalhodojoao/Controllers/FuncionarioController.cs:139 | Some record holds the CPF exactly when the first-match lookup finds one. |
| `Controller.Cpfs` | trabalhodojoao/trabalhodojoao/Controllers/FuncionarioController.cs:139 | The CPF column of a roster, position by position. |
| `Controller.NovoFuncionario` | trabalhodojoao/trabalhodojoao/Controllers/FuncionarioController.cs:144-162 | The new record's CPF is the raw payload CPF. Every other field is the payload value, or empty when the payload field is null. |
| `Controller.Merge` | trabalhodojoao/trabalhodojoao/Controllers/FuncionarioController.cs:186-197 | The CPF is unchanged. Each of the 12 other fields takes the payload value when it is non-null and keeps the old value otherwise. |
| `Controller.RemoveAt` | trabalhodojoao/trabalhodojoao/Controllers/FuncionarioController.cs:220 | Removing one element shortens the list by one. The other elements keep their relative order. |
| `Controller.FieldsInjective` | trabalhodojoao/trabalhodojoao/Controllers/Funcionario.cs:3-23 | A record is determined by its 13 fields. |
| `Controller.MergeEmptyPayload` | trabalhodojoao/trabalhodojoao/Controllers/FuncionarioController.cs:186-197 | A payload with every field null leaves the record unchanged. |
| `Controller.MergeIdempotent` | trabalhodojoao/trabalhodojoao/Controllers/FuncionarioController.cs:186-197 | Applying the same payload twice equals applying it once. |
| `Controller.MergeStorable` | trabalhodojoao/trabalhodojoao/Controllers/FuncionarioController.cs:186-197 | A stored record stays storable after the merge iff no non-null payload field except the CPF contains `\|`. |
| `Controller.FindAppended` | trabalhodojoao/trabalhodojoao/Controllers/FuncionarioController.cs:139-164 | After appending a record under a fresh CPF, a lookup of that CPF finds the appended record. |
| `Controller.AppendKeepsDistinct` | trabalhodojoao/trabalhodojoao/Controllers/FuncionarioController.cs:139-164 | Appending under a CPF not yet present keeps CPF strings pairwise distinct. |
| `Controller.FindAfterRemove` | trabalhodojoao/trabalhodojoao/Controllers/FuncionarioController.cs:213-220 | After the first match is removed, a lookup of the same CPF finds nothing iff no other record had that CPF. |
| `Controller.RemoveKeepsDistinct` | trabalhodojoao/trabalhodojoao/Controllers/FuncionarioController.cs:220 | Removing a record keeps CPF strings pairwise distinct. |
| `Controller.UpdateKeepsCpfs` | trabalhodojoao/trabalhodojoao/Controllers/FuncionarioController.cs:186-199 | Merging a record in place leaves the CPF column unchanged, so distinct CPFs stay distinct. |
| `Controller.StorableOnlyAppend` | trabalhodojoao/trabalhodojoao/Controllers/FuncionarioController.cs:92-96 | Dropping the unstorable records distributes over concatenation. |
| `Controller.StorableOnlyKeepsDistinct` | trabalhodojoao/trabalhodojoao/Controllers/FuncionarioController.cs:92-96 | Dropping unstorable records keeps CPFs distinct, and every CPF kept was in the original roster. |
| `Controller.ReloadAfterUpdate` | trabalhodojoao/trabalhodojoao/Controllers/FuncionarioController.cs:186-199 | After one record is replaced and the roster saved, loading gives that record back if it is storable. Otherwise the record is missing from the load. |
| `Controller.ReloadAfterAppend` | trabalhodojoao/trabalhodojoao/Controllers/FuncionarioController.cs:164-165 | After a record is appended and the roster saved, loading gives the old roster plus the record if it is storable. |
| `Controller.AppendOutcome` | trabalhodojoao/trabalhodojoao/Controllers/FuncionarioController.cs:139-165 | Combines the reload after an append with the preservation of distinct CPFs. |
| `Controller.FuncionarioController.Funcionarios` | trabalhodojoao/trabalhodojoao/Controllers/FuncionarioController.cs:46-90 | The roster a load of the current file gives. Every handler contract states the next load through it. |
| `Controller.FuncionarioController.ObterFuncionarios` | trabalhodojoao/trabalhodojoao/Controllers/FuncionarioController.cs:46-90 | The foreach loop returns exactly the decoded roster, and a missing file gives an empty roster. Kept plus skipped lines equal the line count, and the kept lines re-encode to the file's well-formed lines. |
| `Controller.FuncionarioController.SalvarFuncionarios` | trabalhodojoao/trabalhodojoao/Controllers/FuncionarioController.cs:92-96 | The file becomes one line per record, in order. The next load gives the storable records. |
| `Controller.FuncionarioController.ObterTodos` | trabalhodojoao/trabalhodojoao/Controllers/FuncionarioController.cs:98-103 | Answers Ok with the loaded roster. |
| `Controller.FuncionarioController.ObterPorCpf` | trabalhodojoao/trabalhodojoao/Controllers/FuncionarioController.cs:105-123 | An invalid CPF gives BadRequest. With no exact raw-string match the result is NotFound. Otherwise it is Ok with the first matching record. |
| `Controller.FuncionarioController.Adicionar` | trabalhodojoao/trabalhodojoao/Controllers/FuncionarioController.cs:125-168 | The checks run in order: null payload gives BadRequest, then invalid CPF gives BadRequest, then an existing exact CPF gives Conflict; none of these touch the file. Otherwise the saved roster is the old one with the new record appended. The next load has it iff it is storable, and distinct CPFs stay distinct. |
| `Controller.FuncionarioController.Atualizar` | trabalhodojoao/trabalhodojoao/Controllers/FuncionarioController.cs:170-202 | An invalid CPF gives BadRequest and no match gives NotFound; both leave the file unchanged. Otherwise only the first match is replaced by its merge with the payload, and order, length and CPF column are kept. The next load has the merged record, or lacks it if a payload field held `\|`. |
| `Controller.FuncionarioController.Remover` | trabalhodojoao/trabalhodojoao/Controllers/FuncionarioController.cs:204-224 | An invalid CPF gives BadRequest and no match gives NotFound; both leave the file unchanged. Otherwise the first match is returned and removed, the others keep their order, and distinct CPFs stay distinct. |
| `Scenarios.CreateThenGet` | trabalhodojoao/trabalhodojoao/Controllers/FuncionarioController.cs:105-168 | Creating a storable record under a fresh valid CPF and then getting that CPF returns the created record. |
| `Scenarios.CreateTwice` | trabalhodojoao/trabalhodojoao/Controllers/FuncionarioController.cs:138-142 | Creating the same storable payload twice gives Created, then Conflict. |
| `Scenarios.DeleteThenGet` | trabalhodojoao/trabalhodojoao/Controllers/FuncionarioController.cs:204-224 | With distinct CPFs, deleting a CPF and then getting it gives NotFound. |
| `Scenarios.FormattedCpfIsAnotherKey` | trabalhodojoao/trabalhodojoao/Controllers/FuncionarioController.cs:139 | With a valid CPF stored as bare digits, adding the same CPF written `ddd.ddd.ddd-dd` is accepted as Created, not a conflict. |
| `Scenarios.SeparatorCpfIsLost` | trabalhodojoao/trabalhodojoao/Controllers/FuncionarioController.cs:133-167 | Adding a record whose CPF is a valid CPF written `ddd\|ddd\|ddd\|dd` answers Created, but a following lookup of that CPF answers NotFound. |
| `Scenarios.UnstorableCreatedTwice` | trabalhodojoao/trabalhodojoao/Controllers/FuncionarioController.cs:133-167 | Creating a payload with `\|` in some field twice gives Created both times, and the loaded roster is unchanged: the duplicate check never sees the skipped line. |
| `Scenarios.PartialUpdate` | trabalhodojoao/trabalhodojoao/Controllers/FuncionarioController.cs:186-199 | An update whose payload sets only the room, every other field null, keeps the stored phone and sets the room. Nothing else in the stored record changes. |

## Left out

- HTTP routing, attributes and `IActionResult` construction are reduced to the `Response` datatype. `CreatedAtAction`'s location header is not modelled; only its body is.
- File I/O is modelled as the value of `arquivo`, the file's lines or None when the file is absent. The model does not cover how `ReadAllLines` splits on `\r`, `\n` and `\r\n`, or how `WriteAllLines` terminates lines. A line break inside a field would split a saved line in two on disk, and the model does not capture that.
- The console diagnostics in `ObterFuncionarios` become the count `ignoradas` of skipped lines. The "file does not exist" message is not modelled.
- Concurrency is not modelled. There is no locking, so concurrent load-change-save cycles can lose updates. The model is sequential.
- CPF digits are assumed to be ASCII. The .NET `\D` class is Unicode-aware and `int.Parse` rejects non-ASCII digits. `EndsWith` is compared ordinally, not with the current culture.
- Null-reference failures are excluded by the types or by preconditions, not modelled as behaviour. These are a null payload in `Atualizar`, a null address in a payload, a null CPF in `Adicionar`'s payload (its `requires`), and a stored record with a null address.
- `NovoFuncionario` turns a null payload field into the empty string. That is what the saved line contains. The C# response body of `Adicionar` would show null for such a field.
- The declaration of `funcionarioDTO` is not part of this model. Its shape is inferred from its uses: `Adicionar` copies its fields, and `Atualizar` merges them.
- `Atualizar` assigns the fields of the found object in place, and the list holds that same object. The model replaces the list element by value (`rs[i := Merge(rs[i], dto)]`). Aliasing is therefore not represented, though the observable result is the same.
- `List.Remove` removes by reference equality. The model removes by index; the found element is the first with its CPF, so no earlier element can be the same object.
