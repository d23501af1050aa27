# Mollie OAuth2 provider adapter, modelled in Dafny

This project models the Mollie provider for the generic PHP OAuth2 client.
The provider supplies these things:

- the authorization page on the Mollie web application;
- the token and organization-profile endpoints on the Mollie API;
- the eleven named scopes;
- the default scope list, which is `organizations.read`;
- the space separator used to build the `scope` parameter;
- `checkResponse`, which turns an HTTP error response into a provider exception with a readable message.

All of this is pure, so the model is functions and lemmas:

- `wrappers.dfy`: `Option`, for `isset` entries that may be missing.
- `strings.dfy`: `Join` (PHP `implode`), `Split` at one character, and lemmas proving the two undo each other.
- `mollie.dfy`: the constants, the getters, the `scope` parameter, `CheckResponse` and the lemmas about them.

How the response check is encoded:

- The response is its status code and reason phrase.
- The parsed body is either a plain string (`Text`) or an object whose `error` entry may be missing.
- That entry is a bare string (`Simple`) or a structured error whose `type`, `message` and `field` may each be missing.
- A null entry counts as missing, because `isset` treats null as absent.
- The thrown `IdentityProviderException` is `Outcome.Failure(message, code, response)`.

Two cases follow PHP's own semantics:

- An error that is a string never has a `field` suffix: `isset` on a string offset named `field` is false.
- A structured error without both `type` and `message` makes the error array itself the message:
  - with a `field`, appending the suffix turns the array into the string `"Array"`, so the message is `"Array (field: f)"`;
  - without a `field`, the exception would get an array where it needs a string, which is outcome `Fault`.

## Model

| member | source | states |
|---|---|---|
| Mollie.BaseAuthorizationUrl | src/Provider/Mollie.php:55-58 | The authorization url lies under the web base url and is exactly `https://www.mollie.com/oauth2/authorize`. |
| Mollie.BaseAccessTokenUrl | src/Provider/Mollie.php:68-71 | The token url lies under the API base url and is exactly `https://api.mollie.nl/oauth2/tokens`, whatever the parameters. |
| Mollie.ResourceOwnerDetailsUrl | src/Provider/Mollie.php:79-82 | The profile url lies under the API base url and is exactly `https://api.mollie.nl/v1/organizations/me`, whatever the token. |
| Mollie.DefaultScopes | src/Provider/Mollie.php:90-95 | The default list holds one scope, `organizations.read`, and every default is a known scope. |
| Mollie.ScopeSeparator | src/Provider/Mollie.php:103-106 | The separator is a single space character, and that character occurs in none of the known scopes. |
| Mollie.ErrorMessage | src/Provider/Mollie.php:122-131 | A string error is the message as it is. A structured error's message starts with `"[type] message"` when both are present, and with `"Array"` otherwise. It always ends with the field suffix, which is empty without a field. With no field, it is exactly `"[type] message"`. |
| Strings.Join | src/Provider/Mollie.php:97-106 | Stands for the `implode` the generic client applies with the separator. No parts give the empty string. Otherwise the result starts with the first part and ends with the last. |
| Mollie.CheckResponse | src/Provider/Mollie.php:116-140 | A response passes exactly when its status is below 400, whatever the body. For any other status it fails. The failure carries the response's own status as its code, and the response itself. It is a fault instead only when the error entry would hand the exception a non-string message. |
| Mollie.StructuredMessage | src/Provider/Mollie.php:122-131 | When a structured error has a type and a message, the message starts with `"[type] message"`. It is exactly that when there is no field, and that plus `" (field: f)"` when there is one. |
| Mollie.FieldIsAppended | src/Provider/Mollie.php:128-131 | When a structured error has a field, the failure message ends with `" (field: f)"`, whichever head came before it. |
| Mollie.FieldDeterminesMessage | src/Provider/Mollie.php:122-131 | Two structured errors that differ only in their field give different messages. |
| Mollie.SimpleMessage | src/Provider/Mollie.php:120-131 | A bare string error becomes the message exactly as it is, with no field suffix. The code is the status. |
| Mollie.AbsentErrorUsesReasonPhrase | src/Provider/Mollie.php:120-138 | With no `error` entry, or a body that is not an object, the message is exactly the reason phrase. |
| Mollie.IncompleteStructuredWithField | src/Provider/Mollie.php:124-131 | When a structured error lacks its type or its message and has a field, the message is `"Array (field: f)"`. |
| Mollie.MessageIgnoresStatus | src/Provider/Mollie.php:118-138 | For any two error statuses, the same body and reason phrase give the same message. |
| Mollie.StructuredExample | src/Provider/Mollie.php:116-140 | A 422 with the structured error `invalid_request` / `bad field` / `amount` fails with code 422 and message `"[invalid_request] bad field (field: amount)"`. |
| Mollie.SimpleExample | src/Provider/Mollie.php:116-140 | A 422 with the string error `"something broke"` fails with code 422 and exactly that message. |
| Mollie.EmptyBodyExample | src/Provider/Mollie.php:116-140 | A 422 with an empty body fails with code 422 and the reason phrase `"Unprocessable Entity"` as its message. |
| Mollie.AuthorizationUrlIsFixed | src/Provider/Mollie.php:26-58 | The authorization url is `https://www.mollie.com/oauth2/authorize`, on the web base url. |
| Mollie.AccessTokenUrlIsFixed | src/Provider/Mollie.php:19-71 | The token url is `https://api.mollie.nl/oauth2/tokens` for every set of parameters, on the API base url. |
| Mollie.ResourceOwnerDetailsUrlIsFixed | src/Provider/Mollie.php:19-82 | The profile url is `https://api.mollie.nl/v1/organizations/me` for every token, on the API base url. |
| Mollie.DefaultScopesAreOrganizationsRead | src/Provider/Mollie.php:84-95 | The default scopes are exactly `["organizations.read"]`, which is one of the known scopes. |
| Mollie.ScopeSeparatorIsSpace | src/Provider/Mollie.php:97-106 | The separator is one space. Joining `payments.read` and `refunds.write` gives `"payments.read refunds.write"`. |
| Mollie.KnownScopesAreWords | src/Provider/Mollie.php:36-46 | No known scope is empty, and none contains a space. |
| Mollie.ScopeParameterRoundTrip | src/Provider/Mollie.php:97-106 | Take a non-empty list of scopes in which no scope contains a space. Splitting its `scope` parameter at spaces gives back exactly that list, in order. |
| Mollie.KnownScopesRoundTrip | src/Provider/Mollie.php:36-46 | Every non-empty list of known scopes survives that round trip. |
| Mollie.CommaJoinIsOneWord | src/Provider/Mollie.php:97-101 | With the generic client's default comma separator, the same scopes would arrive as a single space-free word. |

## Left out

- The PSR-7 response object: only its status code and reason phrase are modelled. Headers and the body stream are I/O.
- JSON parsing: the body is given already parsed. The `error` value and its `type`, `message` and `field` are modelled as strings. A number or a boolean there is not modelled: PHP coerces it when formatting the message, so `{"error": 42}` gives `"42"` and `{"error": false}` gives `""`.
- Mollie.ErrorMessage: turning the error array into `"Array"` also raises an "Array to string conversion" notice (PHP 7) or warning (PHP 8). The model drops it. An installed error handler could turn it into an exception in place of the `Failure`.
- `IdentityProviderException` is a class of the external OAuth2 client library and is not part of this model. Only its message, its code and the response it keeps are modelled.
- `Fault` does not say which PHP error is raised when the exception constructor gets an array as its message. It says only that the provider exception is not built.
- The generic client library is not part of this model: the base class, the bearer-authorization trait, redirects, HTTP transport, token exchange and how the scope list reaches `implode`. `Join` stands for that `implode`.
- `createResourceOwner` is left out: it only wraps the array in `MollieResourceOwner`, and that class is not part of this model.
- The getters always return the same output for the same input. This holds trivially because Dafny functions are pure, so it has no lemma of its own.
