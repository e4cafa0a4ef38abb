/** What the scanning thread hands to the worker. */
module Results {

  /** An open port, or the poison pill. */
  datatype Target = Target(ip: nat, port: int)
}
