/** The credential record of src/types.ts, as a value and as the mutable object that the
    interceptor and the strategies update in place. */
module Types {

  /** `AuthInfo`; `U` is the type of its `url` (a wrapped URL, or plain text in the older
      single-file versions). */
  datatype AuthInfo<U> = AuthInfo(authorization: string, apiKey: string, url: U) {
    /** Usable only when both credentials are non-empty. */
    predicate Resolved() {
      authorization != "" && apiKey != ""
    }
  }

  /** The shared `authInfos` object whose fields are assigned in place. */
  class AuthRecord<U> {
    var authorization: string
    var apiKey: string
    var url: U

    constructor (authorization: string, apiKey: string, url: U)
      ensures Value() == AuthInfo(authorization, apiKey, url)
    {
      this.authorization := authorization;
      this.apiKey := apiKey;
      this.url := url;
    }

    function Value(): AuthInfo<U>
      reads this
    {
      AuthInfo(authorization, apiKey, url)
    }

    predicate Resolved()
      reads this
    {
      Value().Resolved()
    }
  }
}
