# Presigned-upload Lambda handler, modelled in Dafny

This project models `lambda_function.py`. That file is an AWS Lambda handler that hands out
presigned S3 POST forms. It works in four steps:

1. It reads the request body and compares its `password` with the `UPLOAD_PASSWORD` setting.
2. For each requested file, in order, it builds an object key. The key is
   `%Y-%m-%d/%s_` of the current UTC time followed by the raw file name.
3. It asks S3 for a presigned POST for that key, with `acl: private` and the file's content
   type, valid for 3600 seconds.
4. It returns 200 with the list of grants. A wrong password gives 403 `{"error": "Unauthorized"}`.
   Any exception gives 500 `{"error": str(e)}`. Every response carries the same three CORS
   headers.

Modules:

- `Outcomes` (`outcomes.dfy`): `Option` (an absent JSON key) and `Result` (a raised exception).
- `ObjectKeys` (`object_keys.dfy`): the key format. It shows that a key reads back
  field by field (`ParseKey`) and that two keys coincide only for the same clock reading and
  the same name.
- `Responses` (`responses.dfy`): `success_response`, `error_response` and the CORS headers.
- `Handler` (`handler.dfy`): `lambda_handler`. There are two versions:
  - `LambdaHandler` is a method with the source's early returns. Its loop, inside the `try`,
    is the method `IssueGrants`, which returns the grants or the exception that stopped it.
    The handler returns the response and the sequence of presign calls that were made.
  - `Handle` and `IssuerCalls` are the functions it is proved equal to. `Build` states the
    loop on prefixes of the file list, and the lemmas are about these functions.

How the environment becomes parameters:

- The request body is passed in already parsed, as a `Payload`. An event with no `"body"`
  key counts as the empty object `{}`, as `event.get("body", "{}")` does. A `"body"` key
  that is present but null is a `Malformed` payload, because `json.loads(None)` raises.
- `UPLOAD_BUCKET` is the `bucket` parameter.
- `UPLOAD_PASSWORD` is `secret: Option<string>`, so it can be unset.
- The UTC clock is `clock: nat -> Reading`: the reading taken while handling file `i`. The
  code calls `utcnow()` once per file, so each file can get a different reading.
- `s3.generate_presigned_post` is `issuer: (nat, PresignRequest) -> Result<Presigned, string>`:
  the answer to call number `i` of the request. It either returns a url and form fields, or
  raises with a message. Because the call's position is an argument, two equal requests in one
  batch can get different answers, and one of them alone can fail. Each file that goes
  through makes exactly one call, so the file at position `i` makes call `i`.

What the code does, and the model with it:

- The code has no extension allowlist, no file-count limit, no rejection of an empty file
  list, no `.zip` check and no name sanitisation. The raw name goes into the key.
- The date and timestamp are taken again for every file, not once per request.
- A wrong password gives 403, not 401.
- `UPLOAD_PASSWORD` is read on each request, inside the `try`. If it is unset, the handler
  raises `KeyError` and returns 500 with the text `'UPLOAD_PASSWORD'`. It is not a startup failure.

## Model

| member | source | states |
|---|---|---|
| `Handler.LambdaHandler` | lambda_function.py:10-56 | The imperative handler, with the same early returns; an exception from the loop becomes a 500 with its text. Its response and its list of presign calls equal `Handle` and `IssuerCalls`. |
| `Handler.IssueGrants` | lambda_function.py:22-47 | The loop: it appends one grant per file and returns at the first file that raises. Its result and its calls equal `Build` of the files; the loop invariant says the grants and calls so far are those of the files processed so far. |
| `Handler.Handle` | lambda_function.py:10-56 | `lambda_handler`'s response as a function of the event, the settings, the clock and the issuer. Its properties are stated by `ForbiddenExactlyOnWrongPassword`, `BodyFaultsAreServerErrors`, `MissingSecretIsServerError`, `SuccessAnswersEveryFile`, `SuccessExactlyWhenEveryFileIssued`, `FaultAbortsBatch` and `EveryResponseHasCors`. |
| `Handler.IssuerCalls` | lambda_function.py:10-56 | The presign calls `lambda_handler` makes, in order. `BodyFaultsAreServerErrors` states that there are none unless the request is admitted; `SuccessAnswersEveryFile` states them exactly for a 200, `FirstFailureWins` (on `Build`) states them exactly when a file raises, and `FaultAbortsBatch` bounds them by `k + 1`. |
| `Handler.PayloadOf` | lambda_function.py:12 | The body as `json.loads(event.get("body", "{}"))` gives it, an absent key counting as `{}`. See `MissingPasswordForbidden` and `BodyFaultsAreServerErrors`. |
| `Handler.Admit` | lambda_function.py:12-19 | The checks before the loop: a body fault, the missing secret, the password gate, or the list of files to handle. See `ForbiddenExactlyOnWrongPassword`, `BodyFaultsAreServerErrors` and `MissingSecretIsServerError`. |
| `Handler.Attempt` | lambda_function.py:24-47 | One iteration of the loop. `AttemptShape` states what it does. |
| `Handler.Build` | lambda_function.py:22-47 | The loop, stated on prefixes of the file list. `FailureIsFinal`, `NextIteration`, `BuildSucceeds` and `FirstFailureWins` state what it does. |
| `Handler.Describe` | lambda_function.py:54-56 | `str(e)` for each exception the handler can raise. `MissingSecretIsServerError`, `BodyFaultsAreServerErrors` and `FaultAbortsBatch` state the texts. |
| `Handler.ForbiddenExactlyOnWrongPassword` | lambda_function.py:14-19 | The status is 403 if and only if the body is an object, the secret is set, and the body's password (absent counts as `None`) differs from it. A 403 body is `{"error": "Unauthorized"}` and no presign call is made, whatever `files` holds. |
| `Handler.MissingPasswordForbidden` | lambda_function.py:12-19 | A body without `password`, or an event without a `body` key, gets exactly the 403 "Unauthorized" response when a secret is set, with no presign call. |
| `Handler.BodyFaultsAreServerErrors` | lambda_function.py:11-56 | A body that fails to parse gives 500 with the parser's message. A body that is valid JSON but not an object gives 500 with `'<type>' object has no attribute 'get'`. Both hold for any secret, and neither makes a presign call. No presign call is ever made unless the body is an object, the secret is set and the password matches. |
| `Handler.MissingSecretIsServerError` | lambda_function.py:18 | With `UPLOAD_PASSWORD` unset, the lookup raises inside the `try`: the response is 500 with the text `'UPLOAD_PASSWORD'`, and no call is made. |
| `Handler.NoFilesSucceeds` | lambda_function.py:15-52 | With the right password and `files` absent or empty, the response is 200 with message "Presigned POST URLs generated" and an empty list, and no call is made. There is no empty-list rejection. |
| `Handler.AttemptShape` | lambda_function.py:24-47 | One iteration. A file without `name` raises `KeyError('name')` before any call. Otherwise exactly one call is made, for key = this iteration's clock prefix + raw name, with `acl: private` and the content type (default `application/octet-stream`) in both the fields and the conditions, and expiry 3600. The iteration succeeds exactly when the issuer answers. The grant then holds the name, the signed key, and the issuer's url and fields unchanged. An issuer fault is re-raised. |
| `Handler.HandlerMakesOneCallPerGrant` | lambda_function.py:35-47 | Each grant the loop appends comes from exactly one presign call. |
| `Handler.FailureIsFinal` | lambda_function.py:23-56 | Once an iteration raises, later files change nothing: no further calls and no grants. |
| `Handler.NextIteration` | lambda_function.py:23-47 | Handling file `k` after the earlier files went through either raises that file's exception or appends its grant. Either way its calls are appended to the calls made so far. |
| `Handler.BuildSucceeds` | lambda_function.py:22-47 | All or nothing. The loop completes if and only if every file's iteration succeeds. It then yields exactly one grant and one call per file, in input order, grant `i` being file `i`'s. |
| `Handler.FirstFailureWins` | lambda_function.py:23-56 | If file `k` is the first to raise, the loop raises that exception. The calls made are one per earlier file, then file `k`'s own if it reached the issuer, and nothing after. |
| `Handler.SuccessAnswersEveryFile` | lambda_function.py:22-52 | A 200's body is the fixed message with one grant per input file, in input order, and one call was made per file. For every `i`, grant `i` is named as file `i`; its key is clock reading `i`'s prefix + the raw name; call `i` is for that key in the bucket, with `acl: private` and the file's content type in fields and conditions and expiry 3600; the grant's url and fields are the issuer's answer to call `i`. |
| `Handler.SuccessExactlyWhenEveryFileIssued` | lambda_function.py:14-52 | The status is 200 if and only if the password check passes and every file has a name and gets a presign answer without a fault. |
| `Handler.FaultAbortsBatch` | lambda_function.py:23-56 | If file `k` is the first to raise (no name, or an issuer fault), the whole response is 500 with that exception's text. No earlier grant is returned, there are at most `k + 1` calls, and a missing name gives the text `'name'`. |
| `Handler.RepeatedFileCanFailAlone` | lambda_function.py:23-56 | Each presign call is answered on its own. Two files with the same name and clock reading make two equal calls. If only the second raises, the response is 500 with the second exception's text, and both calls were made. |
| `Handler.EveryResponseHasCors` | lambda_function.py:49-79 | Every response carries the three CORS headers. The status is always 200, 403 or 500, and it is 200 exactly when the body is the success body. |
| `Responses.CorsHeaders` | lambda_function.py:62-66 | The headers are exactly `Access-Control-Allow-Origin: *`, `Access-Control-Allow-Methods: POST,OPTIONS` and `Access-Control-Allow-Headers: *`. |
| `Responses.BuildersShareHeaders` | lambda_function.py:59-79 | Both builders attach the same three headers, and an error response never carries the success body. |
| `ObjectKeys.Decimal` | lambda_function.py:24 | `%s` prints the seconds as a non-empty string of decimal digits, that reads back as the same number and starts with '0' only when it is "0". |
| `ObjectKeys.DecimalUnique` | lambda_function.py:24 | Any digit string that reads back as `n` and has no leading zero (apart from "0" itself) is `Decimal(n)`, so the contract fixes the `%s` text exactly. |
| `ObjectKeys.TwoDigits` | lambda_function.py:24 | `%m` and `%d` print exactly two digits that read back as the number. |
| `ObjectKeys.FourDigits` | lambda_function.py:24 | `%Y` prints exactly four digits that read back as the year. |
| `ObjectKeys.KeyPrefixShape` | lambda_function.py:24 | `%Y-%m-%d/%s_` has this shape: four year digits, '-', two month digits, '-', two day digits, '/', the seconds in decimal without leading zeros, '_'. Each field reads back to the reading's value, and a seconds field that starts with '0' is the single digit "0". |
| `ObjectKeys.Key` | lambda_function.py:24 | The key is the prefix followed by the file name, so it always ends with the unmodified name. |
| `ObjectKeys.ParseKeyInvertsKey` | lambda_function.py:24 | Splitting a key at its fixed positions and its first '_' recovers the clock reading and the raw name. |
| `ObjectKeys.KeyInjective` | lambda_function.py:24 | Two keys are equal if and only if they were built from the same reading and the same name. Files of one batch collide only if they share a name and their clock readings agree. |
| `ObjectKeys.ExampleKey` | lambda_function.py:24 | A worked key: reading 2024-05-07 at 1715040000 with name `../My File #1.PNG` gives `2024-05-07/1715040000_../My File #1.PNG`. The spaces, the '#' and the path segment are kept. |

## Left out

- The boto3 client and the signing done by `generate_presigned_post` are not modelled; these are calls into a foreign library. The issuer is a function parameter, indexed by the call's position. The model does not constrain what any call returns, and neither does the handler.
- JSON parsing (`json.loads`) and serialisation (`json.dumps`) are foreign code. The handler receives the parsed `Payload`, and response bodies are the `Body` datatype.
- Parse errors are modelled only as an opaque message (`Malformed`). Any non-object JSON value is modelled as `NotObject`, whose `.get` raises `AttributeError`.
- The payload's fields are typed. A `password`, `name` or `type` of a non-string JSON type is not modelled. Neither is a `files` value that is not a list, nor a list element that is not an object. Python would compare, format or fail on these in type-specific ways.
- The wall clock is a parameter. Because `%s` is platform-specific, the model does not check that a reading's date and its seconds counter agree. Each is formatted as read.
- `ObjectKeys.KeyPrefixShape`: years are restricted to 1000–9999, because `%Y` padding below 1000 differs between platforms.
- `ObjectKeys.KeyPrefixShape`: the seconds counter is a `nat`. For a reading before 1970, `%s` prints a negative number with a leading '-', and the model cannot express that.
- Environment lookups are parameters: `UPLOAD_BUCKET` as `bucket`, `UPLOAD_PASSWORD` as `secret`. A missing `UPLOAD_BUCKET` fails at import time, outside the handler, so it is not modelled.
- The `print` used for logging in the `except` clause is left out. It has no effect on the response.
- `str(e)` is modelled as follows. `KeyError` gives `'<key>'` and `AttributeError` gives `'<type>' object has no attribute 'get'`. Parse and issuer exceptions keep their own messages.
- The `context` argument is unused by the handler and not modelled.
