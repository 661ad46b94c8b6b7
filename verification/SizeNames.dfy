/** The size names that reservations of virtual machines and databases have in common. */
module SizeNames {
  /** Sizes below one xlarge, in quarters of a normalized unit: each is twice the one before. */
  predicate SizeBelowXlarge(size: string, units: nat) {
    || (size == "nano" && units == 1) || (size == "micro" && units == 2) || (size == "small" && units == 4)
    || (size == "medium" && units == 8) || (size == "large" && units == 16)
  }

  /** Multiples of one xlarge. */
  predicate XlargesOf(size: string, n: nat) {
    || (size == "xlarge" && n == 1) || (size == "2xlarge" && n == 2) || (size == "3xlarge" && n == 3)
    || (size == "4xlarge" && n == 4) || (size == "6xlarge" && n == 6) || (size == "8xlarge" && n == 8)
    || (size == "9xlarge" && n == 9) || (size == "10xlarge" && n == 10) || (size == "12xlarge" && n == 12)
    || (size == "16xlarge" && n == 16) || (size == "18xlarge" && n == 18) || (size == "24xlarge" && n == 24)
    || (size == "32xlarge" && n == 32) || (size == "48xlarge" && n == 48) || (size == "56xlarge" && n == 56)
    || (size == "96xlarge" && n == 96) || (size == "112xlarge" && n == 112)
  }
}
