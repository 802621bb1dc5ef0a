/** The part of the controller's configuration the model uses. */
module Config {
  datatype Config = Config(
    elbSecurityGroup: string,
    disableSecurityGroupIngress: bool,
    vpcId: string)

  /** The group that stands for the public cloud's load balancers. */
  const DEFAULT_SRC_SG_NAME := "outscale-elb-sg"
}
