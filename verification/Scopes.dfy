/** Registration scopes (extension/types.go, extension/registry.go). */
module Scopes {
  datatype ScopeKind = GlobalScope | SessionScope | OtherScope(name: string)

  datatype Scope = Scope(kind: ScopeKind, key: string)

  /** ValidateScope: a global scope has no key, a session scope has one. */
  predicate ValidScope(scope: Scope) {
    match scope.kind
    case GlobalScope => scope.key == ""
    case SessionScope => scope.key != ""
    case OtherScope(_) => false
  }

  predicate ScopeApplies(registration: Scope, target: Scope) {
    registration.kind.GlobalScope?
    || (registration.kind.SessionScope? && target.kind.SessionScope? && registration.key == target.key)
  }

  /** Two valid scopes of one kind that both reach a target are the same scope. */
  lemma ApplicableScopesAgree(a: Scope, b: Scope, target: Scope)
    requires ValidScope(a) && ValidScope(b) && ScopeApplies(a, target) && ScopeApplies(b, target)
    ensures a.kind.SessionScope? == b.kind.SessionScope? <==> a == b
  {
  }

  /** Among valid scopes a registration reaches the target if it is global or the target itself. */
  lemma AppliesIff(registration: Scope, target: Scope)
    requires ValidScope(registration) && ValidScope(target)
    ensures ScopeApplies(registration, target) <==> registration == Scope(GlobalScope, "") || registration == target
  {
  }
}
