/** Relay usernames (packages/relay/src/registry.ts). */
module Usernames {
  predicate IsLowerAlnum(c: char) {
    'a' <= c <= 'z' || '0' <= c <= '9'
  }

  /** 3 to 32 lower-case letters, digits and hyphens, with no hyphen at either end. */
  predicate IsValidRelayUsername(name: string) {
    && 3 <= |name| <= 32
    && IsLowerAlnum(name[0])
    && IsLowerAlnum(name[|name| - 1])
    && forall i :: 0 <= i < |name| ==> IsLowerAlnum(name[i]) || name[i] == '-'
  }
}
