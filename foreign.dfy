/**
 * Predicates the core obtains from PHP and Laravel and that are not modelled: PHP's
 * `filter_var` with `FILTER_VALIDATE_EMAIL` and `FILTER_VALIDATE_IP` (IPv4 and IPv6
 * flags), and Laravel's `email` and `url` validation rules. Every operation that uses
 * one of them takes the bundle as a parameter, so each property proved holds for every
 * choice of these predicates.
 */
module Foreign {
  datatype Oracles = Oracles(
    filterEmail: string -> bool,
    emailRule: string -> bool,
    urlRule: string -> bool,
    isIpv4: string -> bool,
    isIpv6: string -> bool)
}
